/**
 * `formatVariationValue`, which the targeting-rules, individual-targets and
 * default-rule sections each define with the same body, and the lookup with
 * a placeholder that all three wrap around it.
 */
module ValueFormat {
  import opened Wrappers
  import opened Text
  import opened Json
  import opened FlagTypes

  /**
   * Title-case booleans, a string between double quotes with nothing
   * escaped, and `JSON.stringify` for every other value.
   */
  function FormatVariationValue(v: JsonValue): (t: string)
    ensures v.JBool? ==> t == (if v.b then "True" else "False")
    ensures v.JString? ==> t == "\"" + v.s + "\""
    ensures !v.JBool? && !v.JString? ==> t == Stringify(v)
  {
    match v
    case JBool(b) => if b then "True" else "False"
    case JString(s) => "\"" + s + "\""
    case _ => Stringify(v)
  }

  /**
   * The formatter writes exactly what `JSON.stringify` writes, except for
   * booleans (title case) and for strings holding a quote, a backslash or a
   * control character (which it leaves unescaped).
   */
  lemma FormatAgreesWithJson(v: JsonValue)
    ensures FormatVariationValue(v) == Stringify(v)
        <==> !v.JBool? && (v.JString? ==> forall i :: 0 <= i < |v.s| ==> IsPlain(v.s[i]))
  {
    if v.JString? {
      EscapeStringIdentity(v.s);
      if FormatVariationValue(v) == Stringify(v) {
        assert EscapeString(v.s) == Stringify(v)[1..|Stringify(v)| - 1];
      }
    }
  }

  /**
   * The text for the variation at `index`, or `placeholder` followed by the
   * index when no variation is there; an out-of-range index never fails.
   */
  function DescribeVariation(variations: seq<Variation>, index: int, placeholder: string): (t: string)
    ensures 0 <= index < |variations| ==> t == FormatVariationValue(variations[index].value)
    ensures !(0 <= index < |variations|) ==> t == placeholder + IntToString(index)
  {
    match Lookup(variations, index)
    case Some(v) => FormatVariationValue(v.value)
    case None => placeholder + IntToString(index)
  }

  /** No formatted value starts with a letter `V` or `v`. */
  lemma FormattedValueHead(v: JsonValue)
    ensures |FormatVariationValue(v)| > 0
    ensures FormatVariationValue(v)[0] != 'V' && FormatVariationValue(v)[0] != 'v'
  {
    var t := FormatVariationValue(v);
    if v.JNumber? {
      if v.n >= 0 {
        assert IsDigit(NatToString(v.n)[0]);
      }
    }
  }

  /**
   * A placeholder that starts with `V` or `v` (the source's `Variation N`
   * and `var N`) can never be mistaken for the value of a variation that exists.
   */
  lemma PlaceholderDistinct(variations: seq<Variation>, index: int, placeholder: string, other: int)
    requires |placeholder| > 0 && (placeholder[0] == 'V' || placeholder[0] == 'v')
    requires !(0 <= index < |variations|) && 0 <= other < |variations|
    ensures DescribeVariation(variations, index, placeholder) != DescribeVariation(variations, other, placeholder)
  {
    FormattedValueHead(variations[other].value);
    assert DescribeVariation(variations, index, placeholder)[0] == placeholder[0];
  }
}
