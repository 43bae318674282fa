/**
 * The default-rule section (src/features/flags/sections/DefaultRuleSection.tsx):
 * what is served when targeting is on and nothing matched, what is served
 * when targeting is off, and the current on/off status, each shown on its own.
 */
module DefaultRule {
  import opened Wrappers
  import opened Text
  import opened Json
  import opened FlagTypes
  import opened ValueFormat
  import opened TargetingRules

  datatype DefaultRuleView = DefaultRuleView(
    heading: string,
    onServe: ServeView,
    offServe: Option<string>,
    status: string)

  predicate ExactFallthrough(f: Fallthrough) {
    ExactOutcome(f.variation, f.rollout)
  }

  /**
   * The on-serve line explains the fallthrough like a rule's outcome but
   * shows `Not configured` when neither a variation nor a rollout is set;
   * the off-serve line appears exactly when an off variation is set; the
   * status is `ON` or `OFF`.
   */
  function DefaultRuleSection(fallthrough: Fallthrough, offVariation: Option<int>, isOn: bool, variations: seq<Variation>, envName: string): (view: DefaultRuleView)
    requires ExactFallthrough(fallthrough)
    ensures view.heading == "Default Rule / Fallthrough (" + envName + ")"
    ensures view.onServe == ExplainOutcome(fallthrough.variation, fallthrough.rollout, variations, "Not configured")
    ensures view.offServe.Some? <==> offVariation.Some?
    ensures offVariation.Some? ==> view.offServe.value == DescribeVariation(variations, offVariation.value, "Variation ")
    ensures view.status == (if isOn then "ON" else "OFF")
  {
    DefaultRuleView(
      "Default Rule / Fallthrough (" + envName + ")",
      ExplainOutcome(fallthrough.variation, fallthrough.rollout, variations, "Not configured"),
      if offVariation.Some? then Some(DescribeVariation(variations, offVariation.value, "Variation ")) else None,
      if isOn then "ON" else "OFF")
  }

  /**
   * The three facts are independent: the on-serve line does not depend on
   * the off variation or the status, the off-serve line not on the
   * fallthrough or the status, and the status only on `isOn`.
   */
  lemma DefaultRuleFactsIndependent(f1: Fallthrough, f2: Fallthrough, off1: Option<int>, off2: Option<int>, on1: bool, on2: bool, variations: seq<Variation>, envName: string)
    requires ExactFallthrough(f1) && ExactFallthrough(f2)
    ensures f1 == f2 ==> DefaultRuleSection(f1, off1, on1, variations, envName).onServe == DefaultRuleSection(f2, off2, on2, variations, envName).onServe
    ensures off1 == off2 ==> DefaultRuleSection(f1, off1, on1, variations, envName).offServe == DefaultRuleSection(f2, off2, on2, variations, envName).offServe
    ensures DefaultRuleSection(f1, off1, on1, variations, envName).status == DefaultRuleSection(f2, off2, on2, variations, envName).status <==> on1 == on2
  {
  }

  /** A fixed fallthrough variation, 0 included, hides any rollout stored beside it. */
  lemma FixedFallthroughHidesRollout(index: int, r1: Option<Rollout>, r2: Option<Rollout>, variations: seq<Variation>, envName: string, off: Option<int>, isOn: bool)
    ensures DefaultRuleSection(Fallthrough(Some(index), r1), off, isOn, variations, envName)
      == DefaultRuleSection(Fallthrough(Some(index), r2), off, isOn, variations, envName)
  {
  }

  /**
   * A boolean flag `[false, true]` with fallthrough variation 1, off
   * variation 0 and targeting on shows `True` when on, `False` when off,
   * and status `ON`.
   */
  lemma BooleanFlagScenario(envName: string)
    ensures DefaultRuleSection(Fallthrough(Some(1), None), Some(0), true,
        [Variation("false", JBool(false), None, None), Variation("true", JBool(true), None, None)], envName)
      == DefaultRuleView("Default Rule / Fallthrough (" + envName + ")", ServeValue("True"), Some("False"), "ON")
  {
  }

  /** An even 50000/50000 rollout fallthrough shows both shares as `(50.0%)`. */
  lemma HalfSplitScenario(envName: string)
    ensures DefaultRuleSection(
        Fallthrough(None, Some(Rollout([WeightedVariation(0, 50000), WeightedVariation(1, 50000)], None, None))), Some(0), true,
        [Variation("false", JBool(false), None, None), Variation("true", JBool(true), None, None)], envName).onServe
      == ServeRollout([RolloutEntry("False", " (50.0%)"), RolloutEntry("True", " (50.0%)")])
  {
    assert NatToString(5) == "5" && NatToString(50) == "50";
    assert PercentText(50000) == "50.0";
    var vs := [Variation("false", JBool(false), None, None), Variation("true", JBool(true), None, None)];
    var entries := RolloutEntries(Rollout([WeightedVariation(0, 50000), WeightedVariation(1, 50000)], None, None), vs);
    assert entries[0] == RolloutEntry("False", " (50.0%)");
    assert entries[1] == RolloutEntry("True", " (50.0%)");
  }
}
