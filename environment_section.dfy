/**
 * One environment's collapsible panel on the flag page
 * (src/features/flags/EnvironmentSection.tsx): a header with the on/off
 * badge that opens and closes the panel, and, while open, the four
 * explanation sections in a fixed order, all fed the flag's variations.
 */
module EnvironmentSection {
  import opened Wrappers
  import opened Json
  import opened FlagTypes
  import opened TargetingRules
  import opened DefaultRule
  import opened IndividualTargets
  import opened Prerequisites

  /** A stored list the service may leave out, read as `list ?? []`. */
  function OrEmpty<T>(list: Option<seq<T>>): (items: seq<T>)
    ensures list.None? ==> items == []
    ensures list.Some? ==> items == list.value
  {
    list.GetOr([])
  }

  /** The configurations whose rollouts the model can put into words (see `ExactWeight`). */
  predicate ExactConfig(config: FlagEnvironmentConfig) {
    ExactFallthrough(config.fallthrough)
    && forall k :: 0 <= k < |OrEmpty(config.rules)| ==> ExactRule(OrEmpty(config.rules)[k])
  }

  /** The open panel's body: the sections in the order rules, individual targets, default rule, prerequisites. */
  datatype PanelBody = PanelBody(
    rules: RulesSectionView,
    targets: Option<TargetsView>,
    defaultRule: DefaultRuleView,
    prerequisites: Option<PrerequisitesView>)

  function Body(config: FlagEnvironmentConfig, variations: seq<Variation>, envName: string): (body: PanelBody)
    requires ExactConfig(config)
    ensures body.rules == RulesSection(OrEmpty(config.rules), variations, envName)
    ensures body.targets == TargetsSection(OrEmpty(config.targets), variations, envName)
    ensures body.defaultRule == DefaultRuleSection(config.fallthrough, config.offVariation, config.on, variations, envName)
    ensures body.prerequisites == PrerequisitesSection(OrEmpty(config.prerequisites), variations)
  {
    PanelBody(
      RulesSection(OrEmpty(config.rules), variations, envName),
      TargetsSection(OrEmpty(config.targets), variations, envName),
      DefaultRuleSection(config.fallthrough, config.offVariation, config.on, variations, envName),
      PrerequisitesSection(OrEmpty(config.prerequisites), variations))
  }

  /**
   * Missing lists render like empty ones: the rules section still shows its
   * message and the targets and prerequisites sections disappear; the default
   * rule section is always there and reports the configuration's own status.
   */
  lemma MissingListsRenderEmpty(config: FlagEnvironmentConfig, variations: seq<Variation>, envName: string)
    requires ExactConfig(config)
    ensures config.rules.None? ==> Body(config, variations, envName).rules.body == NoRules("No targeting rules configured.")
    ensures Body(config, variations, envName).targets.None? <==> (config.targets.None? || config.targets.value == [])
    ensures Body(config, variations, envName).prerequisites.None? <==> (config.prerequisites.None? || config.prerequisites.value == [])
    ensures Body(config, variations, envName).defaultRule.status == (if config.on then "ON" else "OFF")
  {
  }

  /** Context targets are never shown: configurations that differ only there render the same body. */
  lemma ContextTargetsIgnored(config: FlagEnvironmentConfig, other: Option<seq<Target>>, variations: seq<Variation>, envName: string)
    requires ExactConfig(config)
    ensures Body(config.(contextTargets := other), variations, envName) == Body(config, variations, envName)
  {
  }

  /**
   * Prerequisites are resolved against the variations given to the panel,
   * which are the flag's own: a prerequisite naming index `i` of the other
   * flag shows this flag's variation `i`.
   */
  lemma PrerequisitesUseOwnVariations(config: FlagEnvironmentConfig, variations: seq<Variation>, envName: string, k: nat)
    requires ExactConfig(config)
    requires config.prerequisites.Some? && k < |config.prerequisites.value|
    requires 0 <= config.prerequisites.value[k].variation < |variations|
    ensures Body(config, variations, envName).prerequisites.value.lines[k].value
      == JsString(variations[config.prerequisites.value[k].variation].value)
  {
  }

  /** The header: the environment's name, an `ON`/`OFF` badge, whether it is expanded, and the id of the part it controls. */
  datatype PanelHeader = PanelHeader(name: string, badge: string, expanded: bool, controls: string)

  datatype PanelView = PanelView(header: PanelHeader, body: Option<PanelBody>)

  /** A panel whose `open` flag its header flips; everything else is fixed when it is created. */
  class EnvironmentPanel {
    const envKey: string
    const envName: string
    const config: FlagEnvironmentConfig
    const variations: seq<Variation>
    var open: bool

    /** Opens as `defaultOpen` says, closed when it is not given. */
    constructor(envKey: string, envName: string, config: FlagEnvironmentConfig, variations: seq<Variation>, defaultOpen: Option<bool>)
      requires ExactConfig(config)
      ensures this.envKey == envKey && this.envName == envName
      ensures this.config == config && this.variations == variations
      ensures open == defaultOpen.GetOr(false)
    {
      this.envKey := envKey;
      this.envName := envName;
      this.config := config;
      this.variations := variations;
      open := defaultOpen.GetOr(false);
    }

    /** A click on the header. */
    method Toggle()
      modifies this
      ensures open == !old(open)
    {
      open := !open;
    }

    /** The header always shows; the sections render exactly while the panel is open. */
    function View(): (view: PanelView)
      reads this
      requires ExactConfig(config)
      ensures view.header == PanelHeader(envName, if config.on then "ON" else "OFF", open, "env-section-" + envKey)
      ensures view.body.Some? <==> open
      ensures open ==> view.body.value == Body(config, variations, envName)
    {
      PanelView(
        PanelHeader(envName, if config.on then "ON" else "OFF", open, "env-section-" + envKey),
        if open then Some(Body(config, variations, envName)) else None)
    }
  }

  /** Two clicks on a fresh panel leave it as it started: closed, with no sections shown. */
  method ClickTwice(envKey: string, envName: string, config: FlagEnvironmentConfig, variations: seq<Variation>) returns (shown: Option<PanelBody>)
    requires ExactConfig(config)
    ensures shown.None?
  {
    var panel := new EnvironmentPanel(envKey, envName, config, variations, None);
    panel.Toggle();
    assert panel.View().body == Some(Body(config, variations, envName));
    panel.Toggle();
    shown := panel.View().body;
  }
}
