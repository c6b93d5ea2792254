# Change Detection toolbox — a Dafny model

The Change Detection toolbox is four scripts for a desktop GIS. They compare
the land-cover layers of two periods:

- **Tool 1, detection** (`detectChanges`) gives every feature of the overlay a
  change tag `code1_code2`. It keeps the features the user asked for: all of
  them, only the changed ones, only those above a minimal area, or both.
  It writes a contingency matrix of summed areas over the sorted union of
  the categories of both periods.
- **Tool 2, classification** (`classifyChanges`) looks up every tag in a user
  conversion table, with "none" for a tag the table lacks. With
  `noChange == "NO"` it drops the unchanged features from a copy of the
  layer. It summarises the areas by change type with percentage columns.
- **Tool 3, hierarchy** (`detectHierarchy`) gives every change a hierarchy
  level: 0 when the two codes are equal, otherwise 1 plus the length of
  their common prefix. It summarises the areas by level with percentages.
- **Tool 4, statistical evaluation** (`computeStatistics`) splits the tags of
  a summary table into two lists of codes. For every category of the sorted
  union it computes the area of each period, the net change, the gain and
  the loss. For one selected category it lists the contributors to its net
  change.

The model treats layers and tables as sequences of records. Areas are exact
`real` numbers and category codes are text. The host's summary-statistics
tool becomes the function `Aggregation.Statistics`. The cursor loops of the
scripts become methods with loop invariants, each proved against a
specification function. The failures that the modelled code raises become
`Err` results: a tag without "_", a code index out of range, an unknown unit
key, a missing layer or field, a division by zero, and Tool 3's `del row`
after a loop that never ran.

Modules: `Outcomes` (results and failures), `Collections` (repeat-free
lists, `list.index`, append-if-new), `Ordering` (Python string order and
`sorted`), `ChangeTags` (tags and `str.split`), `Aggregation` (group sums,
the host statistics, dictionaries, percentages), `Units`, and one module per
tool: `Detection`, `Classification`, `Hierarchy`, `Evaluation`.

Where the code and its design description differ, the model follows the
code:

- A tag is read as the first two parts of `split("_")`, and further parts
  are ignored (`ChangeTags.ExtraPartsIgnored`). It is not split at the only
  "_".
- The percentage totals of Tools 2 and 3 are sums over the set of distinct
  values of a column, and the tool members use these totals. So the
  percentages add up to 100 only when no two groups share a value (see
  Findings; `Aggregation.SummaryPercentages` is the version with plain
  totals).
- Tool 1 reads the second layer through the overlay's renamed field when
  both code fields have the same name (see Findings; `Detection.ReadCodes`
  through the given name is the intended read).

## Model

| member | source | states |
|---|---|---|
| ChangeTags.Split | Scripts/Tool4_StatisticalEvaluationOfChanges.py:40 | `str.split` on one character: at least one part; exactly one part iff the text has no separator; no part contains the separator |
| ChangeTags.JoinSplit | Scripts/Tool4_StatisticalEvaluationOfChanges.py:40 | joining the parts of a split with the separator gives back the text |
| ChangeTags.SplitJoin | Scripts/Tool4_StatisticalEvaluationOfChanges.py:40 | splitting a join of separator-free parts gives back the parts |
| ChangeTags.ParseTag | Scripts/Tool4_StatisticalEvaluationOfChanges.py:40-42 | reading `split("_")[0]` and `[1]` succeeds iff the tag contains "_"; both codes are "_"-free; the failure names the tag |
| ChangeTags.TagRoundTrip | Scripts/Tool4_StatisticalEvaluationOfChanges.py:40-42 | parsing `a_b` for "_"-free codes gives back `(a, b)` |
| ChangeTags.ExtraPartsIgnored | Scripts/Tool4_StatisticalEvaluationOfChanges.py:40-42 | parsing `a_b_rest` gives `(a, b)`: parts after a second "_" are ignored |
| ChangeTags.ParseTagShape | Scripts/Tool4_StatisticalEvaluationOfChanges.py:40-42 | a parsed tag is `code1_code2`, or starts with `code1_code2_` |
| ChangeTags.ParseTagExactly | Scripts/Tool4_StatisticalEvaluationOfChanges.py:40-42 | both directions: ParseTag gives `(c1, c2)` iff both codes are "_"-free and the tag is `c1_c2` or starts with `c1_c2_` |
| ChangeTags.TagInjective | Scripts/Tool1_DetectionOfChanges.py:115-116 | tags of "_"-free codes identify the pair of codes, so a tag looked up in a matrix cell stands for one pair of categories |
| Collections.Dedup | Scripts/Tool4_StatisticalEvaluationOfChanges.py:52-59 | the codes in first-appearance order: repeat-free, with the same members as the input |
| Collections.DedupFirstAppearance | Scripts/Tool4_StatisticalEvaluationOfChanges.py:52-59 | an earlier entry of the de-duplicated list occurs in the input before any occurrence of a later entry |
| Collections.Position | Scripts/Tool4_StatisticalEvaluationOfChanges.py:57 | `list.index`: the first position holding the value |
| Collections.AppendNew | Scripts/Tool4_StatisticalEvaluationOfChanges.py:71-77 | the append-if-absent loops keep the old list as a prefix, hold the union of members and stay repeat-free |
| Ordering.LessTotal | Scripts/Tool4_StatisticalEvaluationOfChanges.py:79 | Python's string order is total: two different texts are ordered one way or the other |
| Ordering.LessTransitive | Scripts/Tool4_StatisticalEvaluationOfChanges.py:79 | Python's string order is transitive |
| Ordering.LessIrreflexive | Scripts/Tool4_StatisticalEvaluationOfChanges.py:79 | no text is below itself |
| Ordering.SortedIsDistinct | Scripts/Tool4_StatisticalEvaluationOfChanges.py:79 | a strictly ascending list has no repeats |
| Ordering.SortedUnique | Scripts/Tool4_StatisticalEvaluationOfChanges.py:79 | `sorted` of the category list: strictly ascending, same members, same length for a repeat-free input |
| Ordering.SortedUniqueIsCanonical | Scripts/Tool1_DetectionOfChanges.py:78-87 | two strictly sorted lists with the same members are equal, so the sorted union does not depend on how it was gathered |
| Aggregation.Statistics | Scripts/Tool4_StatisticalEvaluationOfChanges.py:27 | the host's summary statistics: one row per distinct key, each with the summed area and the row count of its key; the area column adds up to the total area and the frequency column to the number of rows |
| Aggregation.SumForSnoc | Scripts/Tool4_StatisticalEvaluationOfChanges.py:58 | one more row adds its area to the sum of its own key only |
| Aggregation.SumOverCover | Scripts/Tool4_StatisticalEvaluationOfChanges.py:51-69 | adding up the group sums over repeat-free keys that cover every row gives the total area |
| Aggregation.BuildDict | Scripts/Tool4_StatisticalEvaluationOfChanges.py:82-91 | the dictionary-filling loop: the keys are those of the list, and each key holds the value of its last occurrence |
| Aggregation.GetAll | Scripts/Tool4_StatisticalEvaluationOfChanges.py:198-201 | `dict.get(code)` per category: `None` exactly for a code the dictionary lacks, the stored value otherwise |
| Aggregation.WritePercentages | Scripts/Tool2_ClassificationOfChanges.py:99-103 | the update loop gives every row its key, frequency and summed area and writes `100 * value / total` for frequency and area; it fails with a division by zero iff the table is non-empty and a total is 0 |
| Aggregation.PercentColumnSum | Scripts/Tool2_ClassificationOfChanges.py:99-103 | a percentage column adds up to 100 times its column sum over the total |
| Aggregation.PercentagesOfPlainTotal | Scripts/Tool2_ClassificationOfChanges.py:99-103 | against the plain column total, a percentage column adds up to 100 |
| Aggregation.DistinctSumOfSameValues | Scripts/Tool2_ClassificationOfChanges.py:90-96 | the set total depends only on which values occur, not on how often |
| Aggregation.DistinctValuesGiveHundred | Scripts/Tool2_ClassificationOfChanges.py:90-103 | when no two groups share a value, the set total is the plain total and the percentages add up to 100 |
| Aggregation.DistinctTotalsOvercount | Scripts/Tool2_ClassificationOfChanges.py:90-103 | two groups with frequency 3, percentages against the set totals: each group gets `per_freq` 100 and the column adds up to 200 |
| Aggregation.SetTotalOfTwoGroupsOfThree | Scripts/Tool2_ClassificationOfChanges.py:90-95 | the set of the frequencies 3 and 3 sums to 3 |
| Aggregation.PercentagesOverColumns | Scripts/Tool2_ClassificationOfChanges.py:99-103 | the written percentage columns are the frequency and area columns divided by their totals |
| Aggregation.SummaryPercentages | Scripts/Tool3_HierarchyOfChanges.py:72-89 | the percentage block with plain totals over all rows: every row gets its key, frequency, area and its share of the plain totals; fails exactly on a zero total of a non-empty table; both columns of a non-empty table add up to 100 |
| Aggregation.SetTotalPercentages | Scripts/Tool2_ClassificationOfChanges.py:87-103 | the percentage block as the code computes it: every row gets its key, frequency, area and its share of the set totals of the frequency and area columns; fails exactly on a zero set total of a non-empty table; a column adds up to 100 when no two groups share a value in it |
| Evaluation.SplitTags | Scripts/Tool4_StatisticalEvaluationOfChanges.py:36-45 | the three parallel lists hold the parsed codes and the area of every table row; the loop fails iff a tag lacks "_", naming the first such tag |
| Evaluation.GroupSum | Scripts/Tool4_StatisticalEvaluationOfChanges.py:51-69 | `listLC1` is the codes in first-appearance order, and `listSumArea1[k]` is the summed area of the rows with code `listLC1[k]` |
| Evaluation.GroupDict | Scripts/Tool4_StatisticalEvaluationOfChanges.py:82-91 | the period dictionary maps every code to its summed area |
| Evaluation.CategoryAreas | Scripts/Tool4_StatisticalEvaluationOfChanges.py:47-91 | `listLCs` is strictly sorted and holds exactly the codes of both periods; each period dictionary holds exactly that period's codes with their summed areas |
| Evaluation.NetChanges | Scripts/Tool4_StatisticalEvaluationOfChanges.py:99-112 | when `dictLC1` holds exactly `listLC1` and each category is in a dictionary, exactly one branch fires per category and `net = area2 - area1`, an absent period counting 0 |
| Evaluation.GainsAndLosses | Scripts/Tool4_StatisticalEvaluationOfChanges.py:119-134 | the nested loop gives every category its inflow from other categories as gain and minus its outflow as loss |
| Evaluation.FlowStep | Scripts/Tool4_StatisticalEvaluationOfChanges.py:122-126 | one more change row adds its area to the flow between its own codes only |
| Evaluation.InOutflowStep | Scripts/Tool4_StatisticalEvaluationOfChanges.py:122-126 | one more change row adds its area to the gain of its target and to the loss of its source, when the two differ |
| Evaluation.NetIsGainPlusLoss | Scripts/Tool4_StatisticalEvaluationOfChanges.py:99-134 | area in period 2 minus area in period 1 is gain minus loss: `listNet[i] == listGain[i] + listLoss[i]` |
| Evaluation.GainLossSigns | Scripts/Tool4_StatisticalEvaluationOfChanges.py:119-126 | with nonnegative areas the gain is at least 0 and the loss at most 0 |
| Evaluation.UnchangedRowsIgnored | Scripts/Tool4_StatisticalEvaluationOfChanges.py:122-126 | dropping the rows whose two codes are equal changes neither gains nor losses |
| Evaluation.NetSumsToZero | Scripts/Tool4_StatisticalEvaluationOfChanges.py:99-112 | net changes over repeat-free categories covering every code sum to 0 |
| Evaluation.ContributeRow | Scripts/Tool4_StatisticalEvaluationOfChanges.py:142-156 | one row: a row leaving `codeLC` adds minus its area under its target; a row entering adds its area under its source; a row not touching it lists its codes with 0; `codeLC` is never listed |
| Evaluation.ListNew | Scripts/Tool4_StatisticalEvaluationOfChanges.py:150-156 | a code not yet listed is appended with contribution 0; all sums stay the same |
| Evaluation.ContributorsStep | Scripts/Tool4_StatisticalEvaluationOfChanges.py:142-156 | after a pass the contributors are the codes other than `codeLC` of the rows seen so far |
| Evaluation.ContributionStep | Scripts/Tool4_StatisticalEvaluationOfChanges.py:142-156 | after a pass the contribution of each other code is its flow into `codeLC` minus its flow out of it, over the rows seen so far |
| Evaluation.TotalContributionStep | Scripts/Tool4_StatisticalEvaluationOfChanges.py:142-156 | after a pass the total contribution is the gain of `codeLC` minus its loss, over the rows seen so far |
| Evaluation.Contributions | Scripts/Tool4_StatisticalEvaluationOfChanges.py:142-156 | `listCon` never holds `codeLC` and holds every other code of the table; per code the contributions add up to its flow into minus its flow out of `codeLC`; all of them add up to gain minus loss |
| Evaluation.LookedUpSums | Scripts/Tool4_StatisticalEvaluationOfChanges.py:177-180 | reading the grouped sums back from `dictCon` gives the summed contribution of each code |
| Evaluation.GroupedColumnTotal | Scripts/Tool4_StatisticalEvaluationOfChanges.py:158-180 | one summed contribution per distinct code adds up to the total contribution |
| Evaluation.SortedContributions | Scripts/Tool4_StatisticalEvaluationOfChanges.py:158-180 | `listUnCons` is strictly sorted and holds exactly the contributor codes; `listUnConAreas` is aligned with it and holds each code's summed contribution; the column total is the total contribution |
| Evaluation.ContributorTable | Scripts/Tool4_StatisticalEvaluationOfChanges.py:138-180 | the contributor table of `codeLC`: sorted codes other than `codeLC`, each with its flow into minus its flow out of `codeLC`, adding up to the net change of `codeLC` |
| Evaluation.ColumnsHold | Scripts/Tool4_StatisticalEvaluationOfChanges.py:99-134 | the columns computed from the dictionaries and the flows mean what the net, gain and loss tables promise |
| Evaluation.CategoryStatistics | Scripts/Tool4_StatisticalEvaluationOfChanges.py:47-134 | per sorted category: the area of each period (`None` when absent), `net = area2 - area1 = gain + loss`, gain as inflow, loss as minus outflow, and the nets add up to 0 |
| Evaluation.ComputeStatistics | Scripts/Tool4_StatisticalEvaluationOfChanges.py:36-180 | the whole computation: fails iff a tag lacks "_"; otherwise the lists are the parsed table; the category columns hold; contributors exist iff a category was selected, and then they satisfy the contributor table's properties |
| Hierarchy.CommonPrefixLength | Scripts/Tool3_HierarchyOfChanges.py:37-42 | the length at which the two codes first differ or one of them ends |
| Hierarchy.CommonPrefixUnique | Scripts/Tool3_HierarchyOfChanges.py:37-42 | any length where the codes agree up to it and then differ is the common prefix length |
| Hierarchy.Level | Scripts/Tool3_HierarchyOfChanges.py:34-44 | level 0 iff the codes are equal; a failure iff `code2` is a proper prefix of `code1`; otherwise the level is 1 plus the common prefix length, between 1 and `len(code1) + 1`, with `len(code1) + 1` iff `code1` is a proper prefix of `code2` |
| Hierarchy.ComputeLevel | Scripts/Tool3_HierarchyOfChanges.py:34-44 | the `counter` loop with `break` computes Level, including the index failure |
| Hierarchy.DecimalText | Scripts/Tool3_HierarchyOfChanges.py:43 | `str(counter)`: non-empty decimal digits, with a leading "0" only for 0, and "0" exactly for 0 |
| Hierarchy.DecimalTextValue | Scripts/Tool3_HierarchyOfChanges.py:43 | reading the digits of `str(n)` gives back `n` |
| Hierarchy.DecimalTextInjective | Scripts/Tool3_HierarchyOfChanges.py:43-63 | different levels are written as different texts, so each level is its own group of the summary |
| Hierarchy.LevelZeroIffUnchanged | Scripts/Tool3_HierarchyOfChanges.py:30-44 | a feature's level field is "0" iff its two codes are equal |
| Hierarchy.AssignLevels | Scripts/Tool3_HierarchyOfChanges.py:28-45 | the update loop succeeds iff every tag parses and has a level, and then writes the level text of each feature; a failure is that of the first feature without a level |
| Hierarchy.WithoutLevelZero | Scripts/Tool3_HierarchyOfChanges.py:58-61 | the selection `HL <> '0'` keeps exactly the other levels with their sums and counts; level "0" gets 0 |
| Hierarchy.SummaryTable | Scripts/Tool3_HierarchyOfChanges.py:58-63 | the level summary holds one row per level present (its keys are repeat-free), leaving out "0" under `noChange == "NO"`, with the level's summed area and count |
| Hierarchy.DetectHierarchy | Scripts/Tool3_HierarchyOfChanges.py:28-89 | succeeds iff every feature has a level, the layer is not empty and the set totals of a non-empty level summary are non-zero; fails with the first failing feature, then `del row` on an empty layer, then a division by zero; writes every feature's level; each summary row gets its share of the set totals; a column adds up to 100 when no two levels share a value in it |
| Units.UnitLabel | Scripts/Tool2_ClassificationOfChanges.py:151-152 | the label exists iff the unit is one of the four keys; Ares, Hectares, Square meters and Square kilometers get "a", "ha", "m2" and "km2" |
| Units.AreaUnitKeyword | Scripts/Tool1_DetectionOfChanges.py:42-43 | the keyword exists iff the unit is one of the four keys; the four units get ARES, HECTARES, SQUAREMETERS and SQUAREKILOMETERS |
| Classification.ConversionDictionary | Scripts/Tool2_ClassificationOfChanges.py:38-43 | the dictionary holds exactly the table's tags, and `get(tag, "none")` is the type of the last table row for the tag |
| Classification.Classify | Scripts/Tool2_ClassificationOfChanges.py:48-52 | every feature gets the dictionary's type for a mapped tag and "none" otherwise; tag and area are unchanged |
| Classification.KeepChangedMembers | Scripts/Tool2_ClassificationOfChanges.py:67-74 | the kept features are exactly the features whose two codes differ |
| Classification.DeleteStep | Scripts/Tool2_ClassificationOfChanges.py:68-74 | one pass of the deletion loop: it goes on iff the tag has "_", and then it drops exactly the unchanged feature |
| Classification.DeleteUnchanged | Scripts/Tool2_ClassificationOfChanges.py:65-75 | the copy keeps exactly the changed features in layer order; the loop fails iff some tag lacks "_", and the failure names the first such tag |
| Classification.ClassifyChanges | Scripts/Tool2_ClassificationOfChanges.py:38-103 | succeeds iff no tag lacks "_" when unchanged features are dropped and the set totals of a non-empty summary are non-zero; fails with the first tag without "_", otherwise with a division by zero; every feature's type is the last conversion row's type for its tag, or "none"; each row of the summary by type (without the unchanged features under "NO") gets its share of the set totals; a column adds up to 100 when no two types share a value in it |
| Detection.SecondCodeField | Scripts/Tool1_DetectionOfChanges.py:33-34 | the overlay's second code field differs from the first; it is the given name when the names differ, extended otherwise |
| Detection.WriteTags | Scripts/Tool1_DetectionOfChanges.py:35-38 | every feature's change field becomes `code1_code2` and nothing else changes; for "_"-free codes the tag parses back to the two codes |
| Detection.WithoutUnchanged | Scripts/Tool1_DetectionOfChanges.py:48-50 | the selection `code1 <> code2` keeps exactly the changed features |
| Detection.WithoutUnchangedCounts | Scripts/Tool1_DetectionOfChanges.py:48-50 | the selection holds every changed feature as often as the layer does and no unchanged one |
| Detection.WithoutUnchangedAppend | Scripts/Tool1_DetectionOfChanges.py:48-50 | selecting from two pieces of a layer and joining the results is the selection of the whole: layer order is kept |
| Detection.LargerThan | Scripts/Tool1_DetectionOfChanges.py:53-58 | the selection `area > minArea` keeps exactly the strictly larger features |
| Detection.LargerThanCounts | Scripts/Tool1_DetectionOfChanges.py:53-58 | the area selection holds every strictly larger feature as often as the layer does and no other |
| Detection.LargerThanAppend | Scripts/Tool1_DetectionOfChanges.py:53-58 | the area selection of a joined layer is the join of the selections: layer order is kept |
| Detection.SelectionsCommute | Scripts/Tool1_DetectionOfChanges.py:53-58 | the two selections give the same layer in either order |
| Detection.OutputRows | Scripts/Tool1_DetectionOfChanges.py:47-68 | the copied layer exists iff `noChange` is "YES" or "NO"; it holds exactly the features that pass the requested selections; otherwise the copy of the never-created `minAreaFC` fails |
| Detection.OutputRowsCounts | Scripts/Tool1_DetectionOfChanges.py:47-68 | the copied layer holds every feature that passes the requested selections as often as the overlay does, and no other |
| Detection.ReadCodes | Scripts/Tool1_DetectionOfChanges.py:79-80 | a cursor over a field gives its values, and fails iff the layer lacks the field |
| Detection.SecondPeriodCodesAsWritten | Scripts/Tool1_DetectionOfChanges.py:79-80 | the second layer read through the possibly renamed field is the plain read when the field names differ |
| Detection.RenamedFieldIsMissing | Scripts/Tool1_DetectionOfChanges.py:33-34 | with equal field names the renamed field is read from the second layer and fails, though that layer has the given field |
| Detection.Categories | Scripts/Tool1_DetectionOfChanges.py:77-87 | `listLC1` is strictly sorted and holds exactly the codes of both sources; it equals the sorted union |
| Detection.AreaDictionary | Scripts/Tool1_DetectionOfChanges.py:89-95 | the dictionary holds exactly the output's tags, and `get(tag, 0)` is the summed area of the tag |
| Detection.WriteRow | Scripts/Tool1_DetectionOfChanges.py:110-118 | the inner `counter` loop writes the row label and one cell per category (the tag's area, 0 when absent) and leaves every other cell alone |
| Detection.ContingencySheet | Scripts/Tool1_DetectionOfChanges.py:104-118 | the sheet is the header row plus an n×(n+1) block; headers in category order; every row written as WriteRow states |
| Detection.TagAreaIsPairArea | Scripts/Tool1_DetectionOfChanges.py:115-116 | for "_"-free codes, the area summed by tag `a_b` is the area that changed from `a` to `b` |
| Detection.NoSelfChange | Scripts/Tool1_DetectionOfChanges.py:48-50 | without unchanged features, nothing changed from a category to itself |
| Detection.SheetCells | Scripts/Tool1_DetectionOfChanges.py:104-118 | every cell of a sheet written from the dictionary is the area summed by the cell's tag, and the row headers are the categories |
| Detection.BuildContingency | Scripts/Tool1_DetectionOfChanges.py:73-118 | the matrix: its categories are the sorted union, with both headers in that order, and every cell holds the area of its tag |
| Detection.ContingencyMeaning | Scripts/Tool1_DetectionOfChanges.py:104-118 | with "_"-free codes every cell is the area changed from its row category to its column category, and the diagonal is 0 when no feature is unchanged |
| Detection.PlainOutput | Scripts/Tool1_DetectionOfChanges.py:48-68 | the selected features stay tagged and "_"-free, and under "NO" none is unchanged |
| Detection.DetectChanges | Scripts/Tool1_DetectionOfChanges.py:33-118 | succeeds iff the unit is known, `noChange` is "YES" or "NO", and (for a matrix) the second layer has the overlay's name for the second code field; the failure is, in the order the script meets them, the unknown unit, the never-created `minAreaFC`, or the missing field; the output is exactly the selection of the tagged overlay, in order; the matrix is present iff requested, over the sorted union of the output's first codes and the second layer's codes, with tag areas; with "_"-free codes the cells are pair areas, and under "NO" the diagonal is 0 |

## Left out

- The host GIS calls become inputs or record sequences: the overlay, field creation, the area field computed from the geometry, the selections run by the host, the summary-statistics tool, layer copies and table/Excel conversions. `Detection.DetectChanges` takes the overlay rows with codes and area already filled in. It checks the unit keyword but does not compute areas.
- Statistics: the host's row order is not known, so `Aggregation.Statistics` lists groups by first appearance. Every property proved holds for any order of the rows, except the exact order of the summary tables.
- Cursors are treated as reading or writing a whole sequence. When a loop fails part way, the features already updated are not modelled; the result is just `Err`.
- Writes that the scripts finish before a later failure are not kept in the `Err` result: `Detection.DetectChanges` returns only the failure when the output layer was already copied (lines 61-68 of Tool 1) before the read of the second layer fails; `Classification.ClassifyChanges` when the type field was already written into the layer before the deletion or the division fails; `Hierarchy.DetectHierarchy` when every level was already written before the division fails. The layer as written on those runs is not represented.
- Workbook writing and chart drawing are not modelled. The model produces the values that would be written: the contingency sheet as a map from cells to values, and the Tool 4 columns as sequences. The graph code is not modelled, nor are the unit labels it uses beyond `Units.UnitLabel`, nor the reversing of lists for the bars.
- The layer added to the map document, workspace setup from path splitting, and parameter reading in the `__main__` blocks are host side effects and are left out.
- Floating point: areas and percentages are exact reals. There is no rounding and no IEEE behaviour.
- Text conversions: codes are text throughout. With numeric code fields, `str()` of a number and the numeric order used by `sorted` are not modelled.
- In the Tool 1 matrix, cells hold `str(area)` text in the source. The model stores the area as a number and uses 0 for a missing tag. The empty corner cell (0, 0) is not written in either.
- Tool 1's minimal area is an `Option<real>`; `None` stands for the empty parameter. A non-numeric value, which would break the host's SQL clause, is not modelled.
- Tool 1's summary table (lines 123-131) is one host statistics call plus an export, and is left out.
- The unused `listLC2s` sort in Tool 4 (line 93) is left out.
- The second period's codes in Tool 1 come from a field table of the second layer. The overlay's renamed field is modelled only by the rows carrying both codes, and by the name `Detection.DetectChanges` reads the second layer through.
- The tool members follow the code where the Findings show it differs from the intent. The corrected behaviour is proved on the member that would replace the faulty step (`Aggregation.SummaryPercentages`, `Detection.ReadCodes`), not on separate corrected copies of the tools.
- Ordering.SortedUnique: models `sorted` of a list without repeats or of a set. `sorted` of a list with repeats, which would keep them, is not needed by the tools.

## Findings

| source | as written | input that shows it | evidently intended | confidence | as-written member | corrected member |
|---|---|---|---|---|---|---|
| Scripts/Tool2_ClassificationOfChanges.py:90-103 | the totals are sums over the set of the column's values, so groups sharing a frequency or an area are counted once (the same block is at lines 76-89 of Tool 3) | two groups, both of frequency 3: `sumFreq` is 3, each group gets `per_freq` 100, and the column adds up to 200 | totals over all rows, so each percentage column of a non-empty table adds up to 100 | not executed | Aggregation.DistinctTotalsOvercount | Aggregation.SummaryPercentages |
| Scripts/Tool1_DetectionOfChanges.py:79-80 | when both code fields have the same name, lines 33-34 rename `fieldCode2` to `name_1` for the overlay, and then the renamed name is used to read the second input layer | `fieldCode1 == fieldCode2 == "CODE"` and a second layer whose field is `CODE`: the cursor asks for `CODE_1`, which that layer does not have | read the second layer through its own field name and keep the renamed name for the overlay only | not executed | Detection.RenamedFieldIsMissing | Detection.ReadCodes |
