/** Tool 1, detection of land-cover changes: the overlay of two periods
    gets a change tag per feature, the output keeps the features the user
    asked for, and the contingency table lists the summed area of every
    pair of categories. */
module Detection {
  import opened Outcomes
  import opened Collections
  import opened Ordering
  import opened ChangeTags
  import opened Aggregation
  import opened Units

  /** One feature of the overlay layer: the codes of both periods, the
      change tag and the area the host computes in the requested unit. */
  datatype Feature = Feature(code1: Code, code2: Code, change: string, area: real)

  /** The name of the second code field in the overlay: the host renames a
      field whose name the first layer already uses by appending "_1". */
  function SecondCodeField(fieldCode1: string, fieldCode2: string): (r: string)
    ensures r != fieldCode1
    ensures fieldCode1 != fieldCode2 ==> r == fieldCode2
    ensures fieldCode2 <= r
  {
    if fieldCode1 == fieldCode2 then fieldCode2 + "_1" else fieldCode2
  }

  /** The update-cursor loop that writes `code1 + "_" + code2` into the
      change field of every feature; nothing else changes. */
  method WriteTags(rows: seq<Feature>) returns (tagged: seq<Feature>)
    ensures |tagged| == |rows|
    ensures forall j :: 0 <= j < |rows| ==>
      tagged[j] == rows[j].(change := Tag(rows[j].code1, rows[j].code2))
    ensures forall j :: 0 <= j < |rows| && Separator !in rows[j].code1 && Separator !in rows[j].code2 ==>
      ParseTag(tagged[j].change) == Ok((rows[j].code1, rows[j].code2))
  {
    tagged := [];
    for j := 0 to |rows|
      invariant |tagged| == j
      invariant forall i :: 0 <= i < j ==> tagged[i] == rows[i].(change := Tag(rows[i].code1, rows[i].code2))
    {
      var row := rows[j];
      tagged := tagged + [row.(change := Tag(row.code1, row.code2))];
    }
    forall j | 0 <= j < |rows| && Separator !in rows[j].code1 && Separator !in rows[j].code2
      ensures ParseTag(tagged[j].change) == Ok((rows[j].code1, rows[j].code2))
    {
      TagRoundTrip(rows[j].code1, rows[j].code2);
    }
  }

  /** A feature whose change field holds the tag of its own two codes. */
  predicate IsTagged(f: Feature) {
    f.change == Tag(f.code1, f.code2)
  }

  /** The selection with the clause `code1 <> code2`, in layer order. */
  function WithoutUnchanged(rows: seq<Feature>): (r: seq<Feature>)
    ensures |r| <= |rows|
    ensures forall f :: f in r <==> f in rows && f.code1 != f.code2
  {
    if rows == [] then []
    else (if rows[0].code1 != rows[0].code2 then [rows[0]] else []) + WithoutUnchanged(rows[1..])
  }

  /** The selection with the clause `area > minArea` (strict), in layer order. */
  function LargerThan(rows: seq<Feature>, minArea: real): (r: seq<Feature>)
    ensures |r| <= |rows|
    ensures forall f :: f in r <==> f in rows && f.area > minArea
  {
    if rows == [] then []
    else (if rows[0].area > minArea then [rows[0]] else []) + LargerThan(rows[1..], minArea)
  }

  /** The selection keeps every changed feature as often as the layer holds
      it and drops every unchanged one. */
  lemma {:induction false} WithoutUnchangedCounts(rows: seq<Feature>, f: Feature)
    ensures multiset(WithoutUnchanged(rows))[f] == if f.code1 != f.code2 then multiset(rows)[f] else 0
  {
    if rows != [] {
      assert rows == [rows[0]] + rows[1..];
      WithoutUnchangedCounts(rows[1..], f);
    }
  }

  /** The area selection keeps every larger feature as often as the layer
      holds it and drops the others. */
  lemma {:induction false} LargerThanCounts(rows: seq<Feature>, minArea: real, f: Feature)
    ensures multiset(LargerThan(rows, minArea))[f] == if f.area > minArea then multiset(rows)[f] else 0
  {
    if rows != [] {
      assert rows == [rows[0]] + rows[1..];
      LargerThanCounts(rows[1..], minArea, f);
    }
  }

  /** Selecting from two pieces of a layer one after the other selects from
      the whole layer: the selection keeps the layer order. */
  lemma {:induction false} WithoutUnchangedAppend(a: seq<Feature>, b: seq<Feature>)
    ensures WithoutUnchanged(a + b) == WithoutUnchanged(a) + WithoutUnchanged(b)
  {
    if a != [] {
      assert (a + b)[0] == a[0] && (a + b)[1..] == a[1..] + b;
      WithoutUnchangedAppend(a[1..], b);
    } else {
      assert a + b == b;
    }
  }

  /** The area selection keeps the layer order too. */
  lemma {:induction false} LargerThanAppend(a: seq<Feature>, b: seq<Feature>, minArea: real)
    ensures LargerThan(a + b, minArea) == LargerThan(a, minArea) + LargerThan(b, minArea)
  {
    if a != [] {
      assert (a + b)[0] == a[0] && (a + b)[1..] == a[1..] + b;
      LargerThanAppend(a[1..], b, minArea);
    } else {
      assert a + b == b;
    }
  }

  /** The two selections can be made in either order. */
  lemma {:induction false} SelectionsCommute(rows: seq<Feature>, minArea: real)
    ensures LargerThan(WithoutUnchanged(rows), minArea) == WithoutUnchanged(LargerThan(rows, minArea))
  {
    if rows != [] {
      SelectionsCommute(rows[1..], minArea);
      var head := if rows[0].code1 != rows[0].code2 then [rows[0]] else [];
      var rest := WithoutUnchanged(rows[1..]);
      assert WithoutUnchanged(rows) == head + rest;
      if head != [] {
        assert (head + rest)[0] == rows[0] && (head + rest)[1..] == rest;
      } else {
        assert head + rest == rest;
      }
      var head2 := if rows[0].area > minArea then [rows[0]] else [];
      var rest2 := LargerThan(rows[1..], minArea);
      assert LargerThan(rows, minArea) == head2 + rest2;
      if head2 != [] {
        assert (head2 + rest2)[0] == rows[0] && (head2 + rest2)[1..] == rest2;
      } else {
        assert head2 + rest2 == rest2;
      }
    }
  }

  /** A feature the output keeps: a changed one when `noChange == "NO"`,
      one larger than the minimal area when that is given. */
  predicate Selected(f: Feature, noChange: string, minArea: Option<real>) {
    (noChange == "NO" ==> f.code1 != f.code2) && (minArea.Some? ==> f.area > minArea.value)
  }

  /** The layer copied to the output: with `noChange == "NO"` only the
      changed features, with a minimal area only the larger ones, both when
      both are asked for. Any other `noChange` makes the tool copy a layer it
      never created. `None` stands for an empty minimal-area parameter. */
  function OutputRows(rows: seq<Feature>, noChange: string, minArea: Option<real>): (r: Result<seq<Feature>>)
    ensures r.Ok? <==> noChange == "YES" || noChange == "NO"
    ensures r.Err? ==> r.failure == MissingLayer("memory\\minAreaFC")
    ensures r.Ok? ==> forall f :: f in r.value <==> f in rows && Selected(f, noChange, minArea)
  {
    if minArea.None? && noChange == "YES" then Ok(rows)
    else if minArea.None? && noChange == "NO" then Ok(WithoutUnchanged(rows))
    else if minArea.Some? && noChange == "NO" then Ok(LargerThan(WithoutUnchanged(rows), minArea.value))
    else if minArea.Some? && noChange == "YES" then Ok(LargerThan(rows, minArea.value))
    else Err(MissingLayer("memory\\minAreaFC"))
  }

  /** The output holds every selected feature as often as the layer does,
      and no other feature. */
  lemma OutputRowsCounts(rows: seq<Feature>, noChange: string, minArea: Option<real>, f: Feature)
    requires noChange == "YES" || noChange == "NO"
    ensures multiset(OutputRows(rows, noChange, minArea).value)[f] ==
      if Selected(f, noChange, minArea) then multiset(rows)[f] else 0
  {
    if noChange == "NO" {
      WithoutUnchangedCounts(rows, f);
      if minArea.Some? {
        LargerThanCounts(WithoutUnchanged(rows), minArea.value, f);
      }
    } else if minArea.Some? {
      LargerThanCounts(rows, minArea.value, f);
    }
  }

  function FirstCodes(rows: seq<Feature>): (r: seq<Code>)
    ensures |r| == |rows|
  {
    seq(|rows|, j requires 0 <= j < |rows| => rows[j].code1)
  }

  function Changes(rows: seq<Feature>): (r: seq<string>)
    ensures |r| == |rows|
  {
    seq(|rows|, j requires 0 <= j < |rows| => rows[j].change)
  }

  function Areas(rows: seq<Feature>): (r: seq<real>)
    ensures |r| == |rows|
  {
    seq(|rows|, j requires 0 <= j < |rows| => rows[j].area)
  }

  /** A layer read through a search cursor: the values of each field by name. */
  type FieldTable = map<string, seq<Code>>

  /** The values of one field; a cursor over a field the layer lacks fails. */
  function ReadCodes(layer: FieldTable, field: string): (r: Result<seq<Code>>)
    ensures r.Ok? <==> field in layer
    ensures r.Err? ==> r.failure == MissingField(field)
    ensures r.Ok? ==> r.value == layer[field]
  {
    if field in layer then Ok(layer[field]) else Err(MissingField(field))
  }

  /** The second-period codes as the tool reads them: through the renamed
      second code field, which only the overlay has. */
  function SecondPeriodCodesAsWritten(inFC2: FieldTable, fieldCode1: string, fieldCode2: string): (r: Result<seq<Code>>)
    ensures fieldCode1 != fieldCode2 ==> r == ReadCodes(inFC2, fieldCode2)
  {
    ReadCodes(inFC2, SecondCodeField(fieldCode1, fieldCode2))
  }

  /** With both code fields named alike, reading the second layer fails
      although it has the code field it was given. */
  lemma RenamedFieldIsMissing()
    ensures var inFC2: FieldTable := map["CODE" := ["11", "12"]];
      SecondPeriodCodesAsWritten(inFC2, "CODE", "CODE") == Err(MissingField("CODE_1")) &&
      ReadCodes(inFC2, "CODE") == Ok(["11", "12"])
  {
    var inFC2: FieldTable := map["CODE" := ["11", "12"]];
    assert SecondCodeField("CODE", "CODE") == "CODE_1";
    assert "CODE_1" !in inFC2;
  }

  /** The category list: the sorted codes of the first period in the
      output, extended by the sorted codes of the second layer that are not
      there yet, and sorted again. */
  method Categories(codes1: seq<Code>, codes2: seq<Code>) returns (cats: seq<Code>)
    ensures StrictlySorted(cats)
    ensures forall c :: c in cats <==> c in codes1 || c in codes2
    ensures cats == SortedUnique(codes1 + codes2)
  {
    var listLC1 := SortedUnique(codes1);
    var listLC2 := SortedUnique(codes2);
    var union := AppendNew(listLC1, listLC2);
    cats := SortedUnique(union);
    SortedUniqueIsCanonical(cats, SortedUnique(codes1 + codes2));
  }

  /** The summary statistics of the output by change tag, read into a
      dictionary from tag to summed area. */
  method AreaDictionary(out: seq<Feature>) returns (d: map<string, real>)
    ensures forall k :: k in d <==> k in Changes(out)
    ensures forall k :: Get(d, k, 0.0) == SumFor(Changes(out), Areas(out), k)
  {
    var t := Statistics(Changes(out), Areas(out));
    d := BuildDict(Keys(t), AreaColumn(t));
    forall k ensures Get(d, k, 0.0) == SumFor(Changes(out), Areas(out), k) {
      if k in d {
        var i := Position(Keys(t), k);
        DictOfDistinctKeys(Keys(t), i);
      } else {
        SumForAbsent(Changes(out), Areas(out), k);
      }
    }
  }

  /** A cell of the contingency sheet: a category label or an area. */
  datatype Cell = Text(text: string) | Number(value: real)

  type Sheet = map<(nat, nat), Cell>

  /** Row `r` of the sheet: its label in column 0, then the area of every
      tag `cats[r - 1]_cats[c - 1]`, 0 for a tag the dictionary lacks. */
  predicate RowWritten(sheet: Sheet, cats: seq<Code>, d: map<string, real>, r: nat)
    requires 1 <= r <= |cats|
  {
    (r, 0) in sheet && sheet[(r, 0)] == Text(cats[r - 1]) &&
    forall c :: 1 <= c <= |cats| ==>
      (r, c) in sheet && sheet[(r, c)] == Number(Get(d, Tag(cats[r - 1], cats[c - 1]), 0.0))
  }

  /** The inner `counter` loop: one row of the sheet. */
  method WriteRow(sheet: Sheet, cats: seq<Code>, d: map<string, real>, counter2: nat) returns (s: Sheet)
    requires 1 <= counter2 <= |cats|
    ensures RowWritten(s, cats, d, counter2)
    ensures forall p :: p in s <==> p in sheet || (p.0 == counter2 && p.1 <= |cats|)
    ensures forall p :: p in sheet && p.0 != counter2 ==> s[p] == sheet[p]
    ensures forall p :: p in sheet && p.0 == counter2 && p.1 > |cats| ==> s[p] == sheet[p]
  {
    s := sheet;
    var counter := 1;
    for k := 0 to |cats|
      invariant counter == k + 1
      invariant k >= 1 ==> (counter2, 0) in s && s[(counter2, 0)] == Text(cats[counter2 - 1])
      invariant forall c :: 1 <= c <= k ==>
        (counter2, c) in s && s[(counter2, c)] == Number(Get(d, Tag(cats[counter2 - 1], cats[c - 1]), 0.0))
      invariant forall p :: p in s <==> p in sheet || (p.0 == counter2 && (k >= 1 ==> p.1 <= k) && (k == 0 ==> false))
      invariant forall p :: p in sheet && p.0 != counter2 ==> s[p] == sheet[p]
      invariant forall p :: p in sheet && p.0 == counter2 && p.1 > |cats| ==> s[p] == sheet[p]
    {
      if counter == 1 {
        s := s[(counter2, 0) := Text(cats[counter2 - 1])];
      }
      var value := Tag(cats[counter2 - 1], cats[counter - 1]);
      s := s[(counter2, counter) := Number(Get(d, value, 0.0))];
      counter := counter + 1;
    }
  }

  /** The contingency sheet: the header row and column list the categories
      in order, and cell `(r, c)` holds the area of the tag
      `cats[r - 1]_cats[c - 1]`, 0 for a tag the dictionary lacks. */
  method ContingencySheet(cats: seq<Code>, d: map<string, real>) returns (sheet: Sheet)
    ensures forall p :: p in sheet <==>
      (p.0 == 0 && 1 <= p.1 <= |cats|) || (1 <= p.0 <= |cats| && p.1 <= |cats|)
    ensures forall c :: 1 <= c <= |cats| ==> sheet[(0, c)] == Text(cats[c - 1])
    ensures forall r :: 1 <= r <= |cats| ==> RowWritten(sheet, cats, d, r)
  {
    sheet := map[];
    var counter := 1;
    for i := 0 to |cats|
      invariant counter == i + 1
      invariant forall p :: p in sheet <==> p.0 == 0 && 1 <= p.1 <= i
      invariant forall c :: 1 <= c <= i ==> sheet[(0, c)] == Text(cats[c - 1])
    {
      sheet := sheet[(0, counter) := Text(cats[i])];
      counter := counter + 1;
    }
    var counter2 := 1;
    for j := 0 to |cats|
      invariant counter2 == j + 1
      invariant forall p :: p in sheet <==>
        (p.0 == 0 && 1 <= p.1 <= |cats|) || (1 <= p.0 <= j && p.1 <= |cats|)
      invariant forall c :: 1 <= c <= |cats| ==> sheet[(0, c)] == Text(cats[c - 1])
      invariant forall r :: 1 <= r <= j ==> RowWritten(sheet, cats, d, r)
    {
      var before := sheet;
      sheet := WriteRow(sheet, cats, d, counter2);
      forall r | 1 <= r <= j ensures RowWritten(sheet, cats, d, r) {
        assert RowWritten(before, cats, d, r);
      }
      counter2 := counter2 + 1;
    }
  }

  /** The summed area of the features that changed from `a` to `b`. */
  function PairArea(rows: seq<Feature>, a: Code, b: Code): real {
    if rows == [] then 0.0
    else
      var n := |rows| - 1;
      PairArea(rows[..n], a, b) + (if rows[n].code1 == a && rows[n].code2 == b then rows[n].area else 0.0)
  }

  /** Tags of separator-free codes identify the pair, so the area summed
      by tag `a_b` is the area that changed from `a` to `b`. */
  lemma {:induction false} TagAreaIsPairArea(rows: seq<Feature>, a: Code, b: Code)
    requires forall j :: 0 <= j < |rows| ==>
      IsTagged(rows[j]) && Separator !in rows[j].code1 && Separator !in rows[j].code2
    requires Separator !in a && Separator !in b
    ensures SumFor(Changes(rows), Areas(rows), Tag(a, b)) == PairArea(rows, a, b)
  {
    if rows != [] {
      var n := |rows| - 1;
      assert Changes(rows[..n]) == Changes(rows)[..n];
      assert Areas(rows[..n]) == Areas(rows)[..n];
      TagAreaIsPairArea(rows[..n], a, b);
      if rows[n].change == Tag(a, b) {
        TagInjective(rows[n].code1, rows[n].code2, a, b);
      }
    }
  }

  /** Without unchanged features nothing changed from a category to itself. */
  lemma {:induction false} NoSelfChange(rows: seq<Feature>, a: Code)
    requires forall j :: 0 <= j < |rows| ==> rows[j].code1 != rows[j].code2
    ensures PairArea(rows, a, a) == 0.0
  {
    if rows != [] {
      NoSelfChange(rows[..|rows| - 1], a);
    }
  }

  /** The contingency table: the category list and the sheet. */
  datatype Contingency = Contingency(categories: seq<Code>, sheet: Sheet)

  /** Every cell holds the area summed by the tag of its two categories. */
  predicate CellsAreTagAreas(t: Contingency, out: seq<Feature>) {
    forall a, b :: 1 <= a <= |t.categories| && 1 <= b <= |t.categories| ==>
      (a, b) in t.sheet &&
      t.sheet[(a, b)] == Number(SumFor(Changes(out), Areas(out), Tag(t.categories[a - 1], t.categories[b - 1])))
  }

  /** Every cell holds the area that changed from its row to its column category. */
  predicate CellsArePairAreas(t: Contingency, out: seq<Feature>) {
    forall a, b :: 1 <= a <= |t.categories| && 1 <= b <= |t.categories| ==>
      (a, b) in t.sheet && t.sheet[(a, b)] == Number(PairArea(out, t.categories[a - 1], t.categories[b - 1]))
  }

  predicate DiagonalIsZero(t: Contingency) {
    forall a :: 1 <= a <= |t.categories| ==> (a, a) in t.sheet && t.sheet[(a, a)] == Number(0.0)
  }

  /** Lines 77-118 of `detectChanges`: the categories of the output's first
      period and of the second layer, the dictionary of summed areas by tag
      and the sheet. */
  method BuildContingency(out: seq<Feature>, codes2: seq<Code>) returns (t: Contingency)
    ensures t.categories == SortedUnique(FirstCodes(out) + codes2)
    ensures forall c :: c in t.categories <==> c in FirstCodes(out) || c in codes2
    ensures forall p :: p in t.sheet <==>
      (p.0 == 0 && 1 <= p.1 <= |t.categories|) || (1 <= p.0 <= |t.categories| && p.1 <= |t.categories|)
    ensures forall c :: 1 <= c <= |t.categories| ==>
      t.sheet[(0, c)] == Text(t.categories[c - 1]) && t.sheet[(c, 0)] == Text(t.categories[c - 1])
    ensures CellsAreTagAreas(t, out)
  {
    var cats := Categories(FirstCodes(out), codes2);
    var d := AreaDictionary(out);
    var sheet := ContingencySheet(cats, d);
    t := Contingency(cats, sheet);
    SheetCells(sheet, cats, d, out);
  }

  /** A sheet whose rows are written from the dictionary of summed areas
      holds, in every cell, the area summed by the cell's tag. */
  lemma SheetCells(sheet: Sheet, cats: seq<Code>, d: map<string, real>, out: seq<Feature>)
    requires forall r :: 1 <= r <= |cats| ==> RowWritten(sheet, cats, d, r)
    requires forall k :: Get(d, k, 0.0) == SumFor(Changes(out), Areas(out), k)
    ensures CellsAreTagAreas(Contingency(cats, sheet), out)
    ensures forall c :: 1 <= c <= |cats| ==> (c, 0) in sheet && sheet[(c, 0)] == Text(cats[c - 1])
  {
    forall a, b | 1 <= a <= |cats| && 1 <= b <= |cats|
      ensures (a, b) in sheet &&
        sheet[(a, b)] == Number(SumFor(Changes(out), Areas(out), Tag(cats[a - 1], cats[b - 1])))
    {
      assert RowWritten(sheet, cats, d, a);
    }
    forall c | 1 <= c <= |cats| ensures (c, 0) in sheet && sheet[(c, 0)] == Text(cats[c - 1]) {
      assert RowWritten(sheet, cats, d, c);
    }
  }

  /** With plain codes every cell is the area that changed between its two
      categories, and the diagonal is 0 once unchanged features are left out. */
  lemma ContingencyMeaning(t: Contingency, out: seq<Feature>, codes2: seq<Code>)
    requires CellsAreTagAreas(t, out)
    requires forall c :: c in t.categories <==> c in FirstCodes(out) || c in codes2
    requires forall j :: 0 <= j < |out| ==>
      IsTagged(out[j]) && Separator !in out[j].code1 && Separator !in out[j].code2
    requires forall j :: 0 <= j < |codes2| ==> Separator !in codes2[j]
    ensures CellsArePairAreas(t, out)
    ensures (forall j :: 0 <= j < |out| ==> out[j].code1 != out[j].code2) ==> DiagonalIsZero(t)
  {
    var cats := t.categories;
    forall c | c in cats ensures Separator !in c {
      if c in FirstCodes(out) {
        var j :| 0 <= j < |out| && FirstCodes(out)[j] == c;
      } else {
        var j :| 0 <= j < |codes2| && codes2[j] == c;
      }
    }
    forall a, b | 1 <= a <= |cats| && 1 <= b <= |cats|
      ensures t.sheet[(a, b)] == Number(PairArea(out, cats[a - 1], cats[b - 1]))
    {
      assert cats[a - 1] in cats && cats[b - 1] in cats;
      TagAreaIsPairArea(out, cats[a - 1], cats[b - 1]);
    }
    if forall j :: 0 <= j < |out| ==> out[j].code1 != out[j].code2 {
      forall a | 1 <= a <= |cats| ensures t.sheet[(a, a)] == Number(0.0) {
        NoSelfChange(out, cats[a - 1]);
      }
    }
  }

  /** What the tool produces: the output features and, when asked for, the
      contingency table. */
  datatype DetectionResult = DetectionResult(features: seq<Feature>, contingency: Option<Contingency>)

  /** All codes of the overlay and of the second layer are free of "_". */
  predicate PlainCodes(rows: seq<Feature>, codes2: seq<Code>) {
    (forall j :: 0 <= j < |rows| ==> Separator !in rows[j].code1 && Separator !in rows[j].code2) &&
    (forall j :: 0 <= j < |codes2| ==> Separator !in codes2[j])
  }

  /** The tag loop, the selections of the output and the contingency
      table; `inFC2` is the second-period layer and `rows` the host's
      overlay with its computed areas. As in the script, the second layer is
      read through the overlay's name for the second code field, which is
      renamed when both code fields have the same name. */
  method DetectChanges(rows: seq<Feature>, inFC2: FieldTable, fieldCode1: string, fieldCode2: string,
                       areaUnit: string, noChange: string, minArea: Option<real>, contingency: bool)
    returns (r: Result<DetectionResult>)
    ensures r.Ok? <==>
      areaUnit in AreaUnits && (noChange == "YES" || noChange == "NO") &&
      (contingency ==> SecondCodeField(fieldCode1, fieldCode2) in inFC2)
    ensures r.Err? && areaUnit !in AreaUnits ==> r.failure == UnknownUnit(areaUnit)
    ensures r.Err? && areaUnit in AreaUnits && noChange != "YES" && noChange != "NO" ==>
      r.failure == MissingLayer("memory\\minAreaFC")
    ensures r.Err? && areaUnit in AreaUnits && (noChange == "YES" || noChange == "NO") ==>
      r.failure == MissingField(SecondCodeField(fieldCode1, fieldCode2))
    ensures r.Ok? ==> forall j :: 0 <= j < |r.value.features| ==> IsTagged(r.value.features[j])
    ensures r.Ok? ==> r.value.features == OutputRows(TaggedRows(rows), noChange, minArea).value
    ensures r.Ok? ==> (r.value.contingency.Some? <==> contingency)
    ensures r.Ok? && contingency ==>
      var codes2 := inFC2[SecondCodeField(fieldCode1, fieldCode2)];
      r.value.contingency.value.categories == SortedUnique(FirstCodes(r.value.features) + codes2) &&
      CellsAreTagAreas(r.value.contingency.value, r.value.features)
    ensures r.Ok? && contingency && PlainCodes(rows, inFC2[SecondCodeField(fieldCode1, fieldCode2)]) ==>
      CellsArePairAreas(r.value.contingency.value, r.value.features)
    ensures r.Ok? && contingency && noChange == "NO" &&
            PlainCodes(rows, inFC2[SecondCodeField(fieldCode1, fieldCode2)]) ==>
      DiagonalIsZero(r.value.contingency.value)
  {
    var tagged := WriteTags(rows);
    assert tagged == TaggedRows(rows);
    var keyword := AreaUnitKeyword(areaUnit);
    if keyword.None? {
      return Err(UnknownUnit(areaUnit));
    }
    var selected := OutputRows(tagged, noChange, minArea);
    if selected.Err? {
      return Err(selected.failure);
    }
    var out := selected.value;
    forall j | 0 <= j < |out| ensures IsTagged(out[j]) {
      assert out[j] in out;
    }
    if !contingency {
      return Ok(DetectionResult(out, None));
    }
    var codes2 := SecondPeriodCodesAsWritten(inFC2, fieldCode1, fieldCode2);
    if codes2.Err? {
      return Err(codes2.failure);
    }
    var t := BuildContingency(out, codes2.value);
    if PlainCodes(rows, codes2.value) {
      PlainOutput(rows, tagged, out, noChange, minArea);
      ContingencyMeaning(t, out, codes2.value);
    }
    return Ok(DetectionResult(out, Some(t)));
  }

  /** The selected features of an overlay with plain codes have plain codes
      too, and under `noChange == "NO"` none of them is unchanged. */
  lemma PlainOutput(rows: seq<Feature>, tagged: seq<Feature>, out: seq<Feature>, noChange: string, minArea: Option<real>)
    requires tagged == TaggedRows(rows)
    requires OutputRows(tagged, noChange, minArea).Ok? && out == OutputRows(tagged, noChange, minArea).value
    requires forall j :: 0 <= j < |rows| ==> Separator !in rows[j].code1 && Separator !in rows[j].code2
    ensures forall j :: 0 <= j < |out| ==>
      IsTagged(out[j]) && Separator !in out[j].code1 && Separator !in out[j].code2
    ensures noChange == "NO" ==> forall j :: 0 <= j < |out| ==> out[j].code1 != out[j].code2
  {
    forall j | 0 <= j < |out|
      ensures IsTagged(out[j]) && Separator !in out[j].code1 && Separator !in out[j].code2
      ensures noChange == "NO" ==> out[j].code1 != out[j].code2
    {
      assert out[j] in out;
      var i :| 0 <= i < |tagged| && tagged[i] == out[j];
    }
  }

  /** The overlay after the tag loop, as a value. */
  function TaggedRows(rows: seq<Feature>): (r: seq<Feature>)
    ensures |r| == |rows|
  {
    seq(|rows|, j requires 0 <= j < |rows| => rows[j].(change := Tag(rows[j].code1, rows[j].code2)))
  }
}
