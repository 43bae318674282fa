/**
 * The individual-targets section
 * (src/features/flags/sections/IndividualTargetsSection.tsx): one group per
 * stored target, in stored order, headed by the variation it serves.
 */
module IndividualTargets {
  import opened Wrappers
  import opened Text
  import opened Json
  import opened FlagTypes
  import opened ValueFormat

  /** A group: the served variation followed by a colon, then the context keys exactly as stored. */
  datatype TargetGroup = TargetGroup(header: string, values: seq<string>)

  datatype TargetsView = TargetsView(heading: string, groups: seq<TargetGroup>)

  function DescribeTarget(t: Target, variations: seq<Variation>): (g: TargetGroup)
    ensures g.header == DescribeVariation(variations, t.variation, "Variation ") + ":"
    ensures g.values == t.values
  {
    TargetGroup(DescribeVariation(variations, t.variation, "Variation ") + ":", t.values)
  }

  /** Nothing at all for an empty target list; otherwise every target, in order and not regrouped. */
  function TargetsSection(targets: seq<Target>, variations: seq<Variation>, envName: string): (view: Option<TargetsView>)
    ensures view.None? <==> |targets| == 0
    ensures view.Some? ==> view.value.heading == "Individual Targets (" + envName + ")"
    ensures view.Some? ==> |view.value.groups| == |targets|
    ensures view.Some? ==> forall k :: 0 <= k < |targets| ==> view.value.groups[k] == DescribeTarget(targets[k], variations)
  {
    if |targets| == 0 then None
    else Some(TargetsView(
      "Individual Targets (" + envName + ")",
      seq(|targets|, k requires 0 <= k < |targets| => DescribeTarget(targets[k], variations))))
  }

  /** All the values of a list of groups, group after group. */
  function GroupValues(groups: seq<TargetGroup>): seq<string>
  {
    if groups == [] then [] else groups[0].values + GroupValues(groups[1..])
  }

  /** All the values of a list of targets, target after target. */
  function TargetValues(targets: seq<Target>): seq<string>
  {
    if targets == [] then [] else targets[0].values + TargetValues(targets[1..])
  }

  lemma {:induction false} GroupValuesOfTargets(targets: seq<Target>, variations: seq<Variation>)
    ensures GroupValues(seq(|targets|, k requires 0 <= k < |targets| => DescribeTarget(targets[k], variations))) == TargetValues(targets)
  {
    var groups := seq(|targets|, k requires 0 <= k < |targets| => DescribeTarget(targets[k], variations));
    if targets != [] {
      GroupValuesOfTargets(targets[1..], variations);
      assert groups[1..] == seq(|targets[1..]|, k requires 0 <= k < |targets[1..]| => DescribeTarget(targets[1..][k], variations));
    }
  }

  /** Every stored context key is shown, in stored order, and nothing else is. */
  lemma TargetsShowEveryValue(targets: seq<Target>, variations: seq<Variation>, envName: string)
    requires |targets| > 0
    ensures GroupValues(TargetsSection(targets, variations, envName).value.groups) == TargetValues(targets)
  {
    GroupValuesOfTargets(targets, variations);
  }

  /**
   * Targets `["u1", "u2"]` on variation 1 and `["u3"]` on variation 0 of a
   * boolean flag show as `True:` with u1, u2, then `False:` with u3.
   */
  lemma BooleanTargetsScenario(envName: string)
    ensures TargetsSection(
        [Target(["u1", "u2"], 1, None), Target(["u3"], 0, None)],
        [Variation("false", JBool(false), None, None), Variation("true", JBool(true), None, None)], envName)
      == Some(TargetsView("Individual Targets (" + envName + ")",
        [TargetGroup("True:", ["u1", "u2"]), TargetGroup("False:", ["u3"])]))
  {
    var view := TargetsSection(
        [Target(["u1", "u2"], 1, None), Target(["u3"], 0, None)],
        [Variation("false", JBool(false), None, None), Variation("true", JBool(true), None, None)], envName);
    assert view.value.groups[0] == TargetGroup("True:", ["u1", "u2"]);
    assert view.value.groups[1] == TargetGroup("False:", ["u3"]);
    assert view.value.groups == [TargetGroup("True:", ["u1", "u2"]), TargetGroup("False:", ["u3"])];
  }
}
