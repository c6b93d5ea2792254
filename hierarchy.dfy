/** Tool 3, hierarchy of land-cover changes: each change gets a hierarchy
    level computed from its two category codes, and the areas are summarised
    by level with percentages of area and frequency. */
module Hierarchy {
  import opened Outcomes
  import opened Collections
  import opened ChangeTags
  import opened Aggregation

  /** The length of the longest common prefix of `a` and `b`. */
  function CommonPrefixLength(a: string, b: string): (n: nat)
    ensures n <= |a| && n <= |b| && a[..n] == b[..n]
    ensures n < |a| && n < |b| ==> a[n] != b[n]
  {
    if a == [] || b == [] || a[0] != b[0] then 0
    else
      var k := CommonPrefixLength(a[1..], b[1..]);
      assert a[..1 + k] == [a[0]] + a[1..][..k];
      assert b[..1 + k] == [b[0]] + b[1..][..k];
      1 + k
  }

  /** A prefix length at which the two texts first differ (or one ends) is
      the common prefix length. */
  lemma CommonPrefixUnique(a: string, b: string, n: nat)
    requires n <= |a| && n <= |b| && a[..n] == b[..n]
    requires n < |a| && n < |b| ==> a[n] != b[n]
    ensures n == CommonPrefixLength(a, b)
  {
    var m := CommonPrefixLength(a, b);
    forall k | 0 <= k < n ensures a[k] == b[k] {
      assert a[..n][k] == b[..n][k];
    }
    forall k | 0 <= k < m ensures a[k] == b[k] {
      assert a[..m][k] == b[..m][k];
    }
  }

  /** The hierarchy level of the change `code1 -> code2`: 0 when the
      category is unchanged, otherwise 1 plus the length of the common
      prefix of the two codes. When `code2` is a proper prefix of `code1`
      the comparison loop reads past the end of `code2` and fails. */
  function Level(code1: Code, code2: Code): (r: Result<nat>)
    ensures (r.Ok? && r.value == 0) <==> code1 == code2
    ensures r.Err? <==> |code2| < |code1| && code2 == code1[..|code2|]
    ensures r.Ok? && code1 != code2 ==> r.value == 1 + CommonPrefixLength(code1, code2)
    ensures r.Ok? && code1 != code2 ==> 1 <= r.value <= |code1| + 1
    ensures r.Ok? ==> (r.value == |code1| + 1 <==> |code1| < |code2| && code1 == code2[..|code1|])
  {
    if code1 == code2 then Ok(0)
    else if |code2| < |code1| && code2 == code1[..|code2|] then Err(CodeIndexOutOfRange(code1, code2))
    else
      var n := CommonPrefixLength(code1, code2);
      assert n == |code1| ==> code1 == code2[..|code1|];
      Ok(1 + n)
  }

  /** The `counter` loop with `break` that computes the level. */
  method ComputeLevel(code1: Code, code2: Code) returns (r: Result<nat>)
    ensures r == Level(code1, code2)
  {
    if code1 == code2 {
      return Ok(0);
    }
    var counter := 1;
    var i := 0;
    while i < |code1|
      invariant i <= |code1| && i <= |code2| && counter == i + 1
      invariant code1[..i] == code2[..i]
    {
      if i >= |code2| {
        assert code2 == code1[..i];
        return Err(CodeIndexOutOfRange(code1, code2));
      }
      if code1[i] == code2[i] {
        counter := counter + 1;
      } else {
        break;
      }
      assert code1[..i + 1] == code1[..i] + [code1[i]];
      assert code2[..i + 1] == code2[..i] + [code2[i]];
      i := i + 1;
    }
    CommonPrefixUnique(code1, code2, i);
    return Ok(counter);
  }

  /** The decimal digit of a value below 10. */
  function Digit(d: nat): (c: char)
    requires d < 10
    ensures '0' <= c <= '9'
    ensures c == '0' <==> d == 0
  {
    ('0' as int + d) as char
  }

  /** A text of decimal digits only. */
  predicate AllDigits(s: string) {
    forall i :: 0 <= i < |s| ==> '0' <= s[i] <= '9'
  }

  /** The number a text of decimal digits denotes, most significant first. */
  function DigitsValue(s: string): nat
    requires AllDigits(s)
  {
    if s == [] then 0
    else DigitsValue(s[..|s| - 1]) * 10 + (s[|s| - 1] as int - '0' as int)
  }

  /** Decimal text of a number, as `str(n)` writes it: decimal digits, no
      leading zero except for 0 itself. */
  function DecimalText(n: nat): (s: string)
    ensures |s| >= 1 && AllDigits(s)
    ensures n >= 10 ==> |s| >= 2
    ensures s[0] == '0' <==> n == 0
    ensures s == "0" <==> n == 0
  {
    if n < 10 then [Digit(n)]
    else DecimalText(n / 10) + [Digit(n % 10)]
  }

  /** Reading the digits of `str(n)` gives back `n`. */
  lemma {:induction false} DecimalTextValue(n: nat)
    ensures DigitsValue(DecimalText(n)) == n
  {
    var s := DecimalText(n);
    if n >= 10 {
      DecimalTextValue(n / 10);
      assert s[..|s| - 1] == DecimalText(n / 10);
    } else {
      assert s[..|s| - 1] == [];
    }
  }

  /** Different levels are written as different texts, so every level gets
      its own row in the summary table. */
  lemma DecimalTextInjective(a: nat, b: nat)
    requires DecimalText(a) == DecimalText(b)
    ensures a == b
  {
    DecimalTextValue(a);
    DecimalTextValue(b);
  }

  /** One feature of the change layer: its change tag and its area. */
  datatype Feature = Feature(change: string, area: real)

  /** The text stored in the hierarchy field of a feature, or why the
      update loop fails on it. */
  function LevelField(change: string): Result<string> {
    match ParseTag(change)
    case Err(f) => Err(f)
    case Ok((code1, code2)) =>
      match Level(code1, code2)
      case Err(f) => Err(f)
      case Ok(n) => Ok(DecimalText(n))
  }

  /** A feature gets level "0" exactly when its category is unchanged. */
  lemma LevelZeroIffUnchanged(change: string)
    requires LevelField(change).Ok?
    ensures ParseTag(change).Ok?
    ensures LevelField(change).value == "0" <==> ParseTag(change).value.0 == ParseTag(change).value.1
  {
  }

  /** Every feature of the layer gets a level. */
  ghost predicate AllLevels(features: seq<Feature>) {
    forall j :: 0 <= j < |features| ==> LevelField(features[j].change).Ok?
  }

  /** The level texts of a layer whose features all get one. */
  ghost function LevelTexts(features: seq<Feature>): (r: seq<string>)
    requires AllLevels(features)
    ensures |r| == |features|
  {
    seq(|features|, j requires 0 <= j < |features| => LevelField(features[j].change).value)
  }

  /** Feature `j` is the first of the layer that gets no level. */
  ghost predicate FirstFailing(features: seq<Feature>, j: int) {
    0 <= j < |features| && LevelField(features[j].change).Err? &&
    forall i :: 0 <= i < j ==> LevelField(features[i].change).Ok?
  }

  /** The update-cursor loop that writes the hierarchy field of every
      feature; the first feature whose tag or codes fail stops the tool. */
  method AssignLevels(features: seq<Feature>) returns (r: Result<seq<string>>)
    ensures r.Ok? <==> AllLevels(features)
    ensures r.Ok? ==> r.value == LevelTexts(features)
    ensures r.Err? ==>
      exists j :: FirstFailing(features, j) && LevelField(features[j].change) == Err(r.failure)
  {
    var levels: seq<string> := [];
    for j := 0 to |features|
      invariant |levels| == j
      invariant forall i :: 0 <= i < j ==> LevelField(features[i].change) == Ok(levels[i])
    {
      var parsed := ParseTag(features[j].change);
      if parsed.Err? {
        assert FirstFailing(features, j);
        return Err(parsed.failure);
      }
      var (code1, code2) := parsed.value;
      var level := ComputeLevel(code1, code2);
      if level.Err? {
        assert FirstFailing(features, j);
        return Err(level.failure);
      }
      if level.value == 0 {
        levels := levels + ["0"];
      } else {
        levels := levels + [DecimalText(level.value)];
      }
    }
    return Ok(levels);
  }

  /** `Select_analysis` with the clause `HL <> '0'`: the levels and areas of
      the features whose level is not "0". */
  function WithoutLevelZero(levels: seq<string>, areas: seq<real>): (r: (seq<string>, seq<real>))
    requires |levels| == |areas|
    ensures |r.0| == |r.1|
    ensures forall x :: x in r.0 <==> x in levels && x != "0"
    ensures forall k :: SumFor(r.0, r.1, k) == (if k == "0" then 0.0 else SumFor(levels, areas, k))
    ensures forall k :: CountFor(r.0, k) == (if k == "0" then 0 else CountFor(levels, k))
  {
    if levels == [] then ([], [])
    else
      var n := |levels| - 1;
      assert levels == levels[..n] + [levels[n]];
      var p := WithoutLevelZero(levels[..n], areas[..n]);
      if levels[n] == "0" then p
      else
        assert forall k :: (SumFor(p.0 + [levels[n]], p.1 + [areas[n]], k) ==
          SumFor(p.0, p.1, k) + (if levels[n] == k then areas[n] else 0.0)) by {
          forall k { SumForSnoc(p.0, p.1, levels[n], areas[n], k); }
        }
        assert (p.0 + [levels[n]])[..|p.0|] == p.0;
        (p.0 + [levels[n]], p.1 + [areas[n]])
  }

  /** The summary table by hierarchy level; with `noChange == "NO"` the
      unchanged features (level "0") are left out first. */
  function SummaryTable(levels: seq<string>, areas: seq<real>, noChange: string): (t: seq<StatRow<string>>)
    requires |levels| == |areas|
    ensures forall k :: k in Keys(t) <==> k in levels && (noChange == "NO" ==> k != "0")
    ensures forall j :: 0 <= j < |t| ==>
      t[j].sumArea == SumFor(levels, areas, t[j].key) && t[j].frequency == CountFor(levels, t[j].key)
    ensures Distinct(Keys(t))
    ensures t != [] ==> Sum(FrequencyColumn(t)) > 0.0
  {
    if noChange == "NO" then
      var (ks, vs) := WithoutLevelZero(levels, areas);
      Statistics(ks, vs)
    else
      Statistics(levels, areas)
  }

  /** What the tool computes: the level of every feature and the summary
      table by level with its percentage columns. */
  datatype HierarchyResult = HierarchyResult(levels: seq<string>, summary: seq<PercentRow<string>>)

  function Areas(features: seq<Feature>): (r: seq<real>)
    ensures |r| == |features|
  {
    seq(|features|, j requires 0 <= j < |features| => features[j].area)
  }

  /** The summary table by level of a layer whose features all get a level. */
  ghost function LevelSummary(features: seq<Feature>, noChange: string): seq<StatRow<string>>
    requires AllLevels(features)
  {
    SummaryTable(LevelTexts(features), Areas(features), noChange)
  }

  /** `detectHierarchy`: the level field, the summary by level and the
      percentages against the set totals of the frequency and area columns.
      The run fails on the first feature without a level, on an empty layer
      (`del row` after a loop that never bound `row`) and on a zero total of
      a non-empty summary. */
  method DetectHierarchy(features: seq<Feature>, noChange: string) returns (r: Result<HierarchyResult>)
    ensures r.Ok? <==>
      AllLevels(features) && features != [] && SetTotalsUsable(LevelSummary(features, noChange))
    ensures r.Err? && !AllLevels(features) ==>
      exists j :: FirstFailing(features, j) && LevelField(features[j].change) == Err(r.failure)
    ensures r.Err? && AllLevels(features) && features == [] ==> r.failure == UnboundVariable("row")
    ensures r.Err? && AllLevels(features) && features != [] ==> r.failure == DivisionByZero
    ensures r.Ok? ==> r.value.levels == LevelTexts(features)
    ensures r.Ok? ==>
      var t := LevelSummary(features, noChange);
      PercentagesOver(t, DistinctSum(FrequencyColumn(t)), DistinctSum(AreaColumn(t)), r.value.summary)
    ensures r.Ok? ==>
      var t := LevelSummary(features, noChange);
      (t != [] && Distinct(AreaColumn(t)) ==> Sum(PerAreaColumn(r.value.summary)) == 100.0) &&
      (t != [] && Distinct(FrequencyColumn(t)) ==> Sum(PerFreqColumn(r.value.summary)) == 100.0)
  {
    var levels := AssignLevels(features);
    if levels.Err? {
      return Err(levels.failure);
    }
    if features == [] {
      return Err(UnboundVariable("row"));
    }
    var t := SummaryTable(levels.value, Areas(features), noChange);
    var percentages := SetTotalPercentages(t);
    if percentages.Err? {
      return Err(percentages.failure);
    }
    return Ok(HierarchyResult(levels.value, percentages.value));
  }
}
