/** The area units the tools accept, with the label the graphs print and
    the keyword the host's area expression expects. */
module Units {
  import opened Outcomes

  const AreaUnits: seq<string> := ["Ares", "Hectares", "Square meters", "Square kilometers"]

  /** The unit label on the axis of the area graphs; any other unit is a
      missing dictionary key. */
  function UnitLabel(areaUnit: string): (r: Option<string>)
    ensures r.Some? <==> areaUnit in AreaUnits
    ensures r.Some? ==> 1 <= |r.value| <= 3 && ' ' !in r.value
    ensures areaUnit == "Ares" ==> r == Some("a")
    ensures areaUnit == "Hectares" ==> r == Some("ha")
    ensures areaUnit == "Square meters" ==> r == Some("m2")
    ensures areaUnit == "Square kilometers" ==> r == Some("km2")
  {
    var labels := map["Ares" := "a", "Hectares" := "ha", "Square meters" := "m2", "Square kilometers" := "km2"];
    if areaUnit in labels then Some(labels[areaUnit]) else None
  }

  /** The unit keyword of the area expression `!SHAPE.AREA@<keyword>!`; any
      other unit is a missing dictionary key. */
  function AreaUnitKeyword(areaUnit: string): (r: Option<string>)
    ensures r.Some? <==> areaUnit in AreaUnits
    ensures r.Some? ==> |r.value| >= 4 && forall i :: 0 <= i < |r.value| ==> 'A' <= r.value[i] <= 'Z'
    ensures areaUnit == "Ares" ==> r == Some("ARES")
    ensures areaUnit == "Hectares" ==> r == Some("HECTARES")
    ensures areaUnit == "Square meters" ==> r == Some("SQUAREMETERS")
    ensures areaUnit == "Square kilometers" ==> r == Some("SQUAREKILOMETERS")
  {
    var keywords := map["Ares" := "ARES", "Hectares" := "HECTARES", "Square meters" := "SQUAREMETERS",
                        "Square kilometers" := "SQUAREKILOMETERS"];
    if areaUnit in keywords then Some(keywords[areaUnit]) else None
  }
}
