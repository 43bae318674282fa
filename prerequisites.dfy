/**
 * The prerequisites section
 * (src/features/flags/sections/PrerequisitesSection.tsx): for each
 * prerequisite, `Requires <flag key> = <value>`. The value is looked up in
 * the variations the section is given, which the flag page passes as the
 * flag's OWN variations, although a prerequisite names a variation of the
 * other flag.
 */
module Prerequisites {
  import opened Wrappers
  import opened Text
  import opened Json
  import opened FlagTypes

  datatype PrerequisiteLine = PrerequisiteLine(lead: string, flagKey: string, equals: string, value: string)

  datatype PrerequisitesView = PrerequisitesView(heading: string, lines: seq<PrerequisiteLine>)

  /** The required value as `String(value)` (so without quotes), or `Variation N` when no variation is at that index. */
  function RequiredValue(variations: seq<Variation>, index: int): (t: string)
    ensures 0 <= index < |variations| ==> t == JsString(variations[index].value)
    ensures !(0 <= index < |variations|) ==> t == "Variation " + IntToString(index)
  {
    match Lookup(variations, index)
    case Some(v) => JsString(v.value)
    case None => "Variation " + IntToString(index)
  }

  function DescribePrerequisite(p: Prerequisite, variations: seq<Variation>): (line: PrerequisiteLine)
    ensures line == PrerequisiteLine("Requires", p.key, "=", RequiredValue(variations, p.variation))
  {
    PrerequisiteLine("Requires", p.key, "=", RequiredValue(variations, p.variation))
  }

  /** Nothing at all for no prerequisites; otherwise one line per prerequisite, in stored order. */
  function PrerequisitesSection(prerequisites: seq<Prerequisite>, variations: seq<Variation>): (view: Option<PrerequisitesView>)
    ensures view.None? <==> |prerequisites| == 0
    ensures view.Some? ==> view.value.heading == "Prerequisites" && |view.value.lines| == |prerequisites|
    ensures view.Some? ==> forall k :: 0 <= k < |prerequisites| ==>
      view.value.lines[k] == DescribePrerequisite(prerequisites[k], variations)
  {
    if |prerequisites| == 0 then None
    else Some(PrerequisitesView("Prerequisites",
      seq(|prerequisites|, k requires 0 <= k < |prerequisites| => DescribePrerequisite(prerequisites[k], variations))))
  }

  /**
   * The lookup tests whether a variation exists, not whether its value is
   * truthy: `false`, `0`, `""` and `null` are shown as `false`, `0`, an
   * empty text and `null`, never as the `Variation N` placeholder.
   */
  lemma FalsyValuesStillShown(variations: seq<Variation>, index: int)
    requires 0 <= index < |variations|
    requires variations[index].value in {JBool(false), JNumber(0), JString(""), JNull}
    ensures RequiredValue(variations, index) in {"false", "0", "", "null"}
    ensures RequiredValue(variations, index) != "Variation " + IntToString(index)
  {
    assert NatToString(0) == "0";
  }

  /**
   * Where the rule sections quote a string value and write booleans in
   * title case, this section shows a string bare and a boolean in lower case;
   * on numbers and `null` the two agree with compact JSON.
   */
  lemma RequiredValueVersusJson(variations: seq<Variation>, index: int)
    requires 0 <= index < |variations|
    ensures variations[index].value.JString? ==> Quote(RequiredValue(variations, index)) == Stringify(variations[index].value)
    ensures (variations[index].value.JNull? || variations[index].value.JBool? || variations[index].value.JNumber?)
      ==> RequiredValue(variations, index) == Stringify(variations[index].value)
  {
    JsStringVersusStringify(variations[index].value);
  }
}
