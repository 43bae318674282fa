/**
 * The variations list (src/features/flags/sections/VariationsSection.tsx):
 * every variation in stored order with its position, its value in the
 * list's own format, and its name and description when they are non-empty.
 */
module VariationsSection {
  import opened Wrappers
  import opened Text
  import opened Json
  import opened FlagTypes
  import opened ValueFormat

  /** The list's value format: lower-case booleans, a string between plain quotes, and indented JSON otherwise. */
  function ListFormatValue(v: JsonValue): (t: string)
    ensures v.JBool? ==> t == (if v.b then "true" else "false")
    ensures v.JString? ==> t == "\"" + v.s + "\""
    ensures !v.JBool? && !v.JString? ==> t == Pretty(v)
  {
    match v
    case JBool(b) => if b then "true" else "false"
    case JString(s) => "\"" + s + "\""
    case _ => Pretty(v)
  }

  /**
   * The list format and the rule format agree except on booleans (lower
   * versus title case) and on non-empty arrays and objects (indented over
   * several lines versus one line).
   */
  lemma ListVersusRuleFormat(v: JsonValue)
    ensures ListFormatValue(v) == FormatVariationValue(v) <==> !v.JBool? && !IsNonEmptyContainer(v)
  {
    PrettyBreaksOnlyContainers(v);
    if IsNonEmptyContainer(v) {
      StringifyOneLine(v);
    }
  }

  /** Outside booleans and strings, the list format differs from the rule format only by layout whitespace. */
  lemma ListFormatIsLaidOutJson(v: JsonValue)
    requires !v.JBool? && !v.JString?
    ensures Minify(ListFormatValue(v), Between) == FormatVariationValue(v)
  {
    PrettyMinifiesToCompact(v, "");
  }

  datatype VariationRow = VariationRow(position: string, value: string, name: Option<string>, description: Option<string>)

  datatype VariationsView = VariationsView(heading: string, rows: seq<VariationRow>)

  /** Only a present, non-empty text is shown. */
  function ShownText(t: Option<string>): (shown: Option<string>)
    ensures shown.Some? <==> t.Some? && t.value != ""
    ensures shown.Some? ==> shown == t
  {
    if t.Some? && t.value != "" then t else None
  }

  function DescribeVariationRow(v: Variation, i: nat): (row: VariationRow)
    ensures row.position == IntToString(i)
    ensures row.value == ListFormatValue(v.value)
    ensures row.name == ShownText(v.name) && row.description == ShownText(v.description)
  {
    VariationRow(IntToString(i), ListFormatValue(v.value), ShownText(v.name), ShownText(v.description))
  }

  function VariationsList(variations: seq<Variation>): (view: VariationsView)
    ensures view.heading == "Variations"
    ensures |view.rows| == |variations|
    ensures forall i :: 0 <= i < |variations| ==> view.rows[i] == DescribeVariationRow(variations[i], i)
  {
    VariationsView("Variations", seq(|variations|, i requires 0 <= i < |variations| => DescribeVariationRow(variations[i], i)))
  }

  /** Each row's position reads back as the index that rules, targets and rollouts use for that variation. */
  lemma RowPositionIsIndex(variations: seq<Variation>, i: nat)
    requires i < |variations|
    ensures IsIntLiteral(VariationsList(variations).rows[i].position)
    ensures ParseInt(VariationsList(variations).rows[i].position) == i
    ensures DescribeVariation(variations, ParseInt(VariationsList(variations).rows[i].position), "Variation ")
      == FormatVariationValue(variations[i].value)
  {
    IntToStringRoundTrip(i);
  }
}
