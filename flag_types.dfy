/**
 * The flag-management service's entities as the viewer receives them
 * (src/types/launchdarkly.ts). Optional fields (`x?: T`, which the service
 * may also send as `null`) are `Option`s; a `Record<string, T>` that is only
 * looked up is a `map`, one whose entries are iterated keeps its property
 * order as a sequence of pairs.
 */
module FlagTypes {
  import opened Wrappers
  import opened Json

  datatype Variation = Variation(
    id: string,
    value: JsonValue,
    name: Option<string>,
    description: Option<string>)

  datatype Clause = Clause(
    id: Option<string>,
    attribute: string,
    op: string,
    values: seq<JsonValue>,
    negate: bool,
    contextKind: Option<string>)

  /** A share of a rollout: `weight` is in thousandths of a percent (100000 is 100%). */
  datatype WeightedVariation = WeightedVariation(variation: int, weight: int)

  datatype Rollout = Rollout(
    variations: seq<WeightedVariation>,
    bucketBy: Option<string>,
    contextKind: Option<string>)

  /** What is served when targeting is on and nothing else matched: a fixed variation, a rollout, both or neither. */
  datatype Fallthrough = Fallthrough(variation: Option<int>, rollout: Option<Rollout>)

  datatype Target = Target(values: seq<string>, variation: int, contextKind: Option<string>)

  datatype TargetingRule = TargetingRule(
    id: string,
    description: Option<string>,
    clauses: seq<Clause>,
    variation: Option<int>,
    rollout: Option<Rollout>,
    ruleRef: Option<string>,
    trackEvents: Option<bool>)

  datatype Prerequisite = Prerequisite(key: string, variation: int)

  datatype VariationSummary = VariationSummary(
    rules: int,
    nullRules: int,
    targets: int,
    isFallthrough: Option<bool>,
    isOff: Option<bool>)

  /** `_summary.variations`: per-variation counts keyed by variation, in property order. */
  datatype Summary = Summary(variations: seq<(string, VariationSummary)>)

  datatype FlagEnvironmentConfig = FlagEnvironmentConfig(
    on: bool,
    archived: bool,
    targets: Option<seq<Target>>,
    contextTargets: Option<seq<Target>>,
    rules: Option<seq<TargetingRule>>,
    fallthrough: Fallthrough,
    offVariation: Option<int>,
    prerequisites: Option<seq<Prerequisite>>,
    lastModified: Option<int>,
    salt: Option<string>,
    version: Option<int>,
    summary: Option<Summary>)

  datatype FlagKind = Boolean | Multivariate

  datatype FeatureFlag = FeatureFlag(
    key: string,
    name: string,
    description: string,
    kind: FlagKind,
    creationDate: int,
    archived: bool,
    deprecated: bool,
    temporary: bool,
    tags: seq<string>,
    variations: seq<Variation>,
    environments: map<string, FlagEnvironmentConfig>)

  datatype Environment = Environment(key: string, name: string, color: string, confirmChanges: bool)

  /** A project; of its optional `environments` listing only the total count is used. */
  datatype Project = Project(key: string, name: string, tags: seq<string>, environmentCount: Option<int>)

  /**
   * `variations[i]` in JavaScript: the variation at a JavaScript number
   * index, or nothing when the index is negative or past the end (a
   * variation object is always truthy, so "present" is all the source tests).
   */
  function Lookup(variations: seq<Variation>, i: int): (r: Option<Variation>)
    ensures r.Some? <==> 0 <= i < |variations|
    ensures r.Some? ==> r.value == variations[i]
  {
    if 0 <= i < |variations| then Some(variations[i]) else None
  }

  /**
   * How a rule or fallthrough resolves, as the viewer reads its two optional
   * fields: a present `variation` (0 included) wins, else a present rollout,
   * else nothing.
   */
  datatype Outcome = Fixed(index: int) | Weighted(rollout: Rollout) | Unspecified

  function OutcomeOf(variation: Option<int>, rollout: Option<Rollout>): (o: Outcome)
    ensures variation.Some? ==> o == Fixed(variation.value)
    ensures variation.None? && rollout.Some? ==> o == Weighted(rollout.value)
    ensures o == Unspecified <==> variation.None? && rollout.None?
  {
    if variation.Some? then Fixed(variation.value)
    else if rollout.Some? then Weighted(rollout.value)
    else Unspecified
  }

  /** The flag-kind badge shown on the flag card and the flag page. */
  function KindLabel(kind: FlagKind): (badge: string)
    ensures badge == "Boolean" <==> kind == Boolean
    ensures badge == "Multivariate" <==> kind == Multivariate
  {
    match kind
    case Boolean => "Boolean"
    case Multivariate => "Multivariate"
  }
}
