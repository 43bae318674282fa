/**
 * A flag's card in the flag list (src/features/flags/FlagCard.tsx): name,
 * kind, key, description, one status line per configured environment with
 * its rule count, and at most five tags.
 */
module FlagCard {
  import opened Wrappers
  import opened Text
  import opened FlagTypes
  import opened FlagDetail

  // ---------------------------------------------------------------------
  // Rule count
  // ---------------------------------------------------------------------

  /** `reduce((sum, v) => sum + v.rules, acc)` over the summary's entries, left to right. */
  function FoldRules(acc: int, entries: seq<(string, VariationSummary)>): int
    decreases |entries|
  {
    if entries == [] then acc else FoldRules(acc + entries[0].1.rules, entries[1..])
  }

  /** The reference total: the sum of the `rules` counts of all entries. */
  function SumRules(entries: seq<(string, VariationSummary)>): (total: int)
  {
    if entries == [] then 0 else SumRules(entries[..|entries| - 1]) + entries[|entries| - 1].1.rules
  }

  /** `ruleCount`: the fold from 0 over the summary, or 0 when the configuration has no summary. */
  function RuleCount(summary: Option<Summary>): int
  {
    if summary.Some? then FoldRules(0, summary.value.variations) else 0
  }

  lemma {:induction false} SumRulesCons(entries: seq<(string, VariationSummary)>)
    requires entries != []
    ensures SumRules(entries) == entries[0].1.rules + SumRules(entries[1..])
  {
    if |entries| > 1 {
      SumRulesCons(entries[..|entries| - 1]);
      assert entries[..|entries| - 1][1..] == entries[1..][..|entries[1..]| - 1];
    }
  }

  lemma {:induction false} FoldRulesIsSum(acc: int, entries: seq<(string, VariationSummary)>)
    ensures FoldRules(acc, entries) == acc + SumRules(entries)
    decreases |entries|
  {
    if entries != [] {
      FoldRulesIsSum(acc + entries[0].1.rules, entries[1..]);
      SumRulesCons(entries);
    }
  }

  /** The rule count is the total of the per-variation rule counts, and 0 without a summary. */
  lemma RuleCountIsTotal(summary: Option<Summary>)
    ensures summary.None? ==> RuleCount(summary) == 0
    ensures summary.Some? ==> RuleCount(summary) == SumRules(summary.value.variations)
  {
    if summary.Some? {
      FoldRulesIsSum(0, summary.value.variations);
    }
  }

  /** Per-variation rule counts 2 and 3 give 5; no summary gives 0. */
  lemma RuleCountExample(a: VariationSummary, b: VariationSummary)
    requires a.rules == 2 && b.rules == 3
    ensures RuleCount(Some(Summary([("0", a), ("1", b)]))) == 5
    ensures RuleCount(None) == 0
  {
    var entries := [("0", a), ("1", b)];
    assert entries[1..] == [("1", b)] && entries[1..][1..] == [];
    assert FoldRules(0, entries) == FoldRules(2, [("1", b)]) == FoldRules(5, []);
  }

  /** `(n rule)` or `(n rules)`, shown only for a positive count. */
  function RuleCountText(n: int): (t: Option<string>)
    ensures t.Some? <==> n > 0
    ensures t.Some? ==> t.value == "(" + Counted(n, "rule") + ")"
  {
    if n > 0 then Some("(" + Counted(n, "rule") + ")") else None
  }

  // ---------------------------------------------------------------------
  // Environments and tags
  // ---------------------------------------------------------------------

  datatype EnvStatus = EnvStatus(name: string, state: string, rules: Option<string>)

  function StatusOf(env: Environment, config: FlagEnvironmentConfig): (status: EnvStatus)
    ensures status.name == env.name
    ensures status.state == (if config.on then "On" else "Off")
    ensures status.rules == RuleCountText(RuleCount(config.summary))
  {
    EnvStatus(env.name, if config.on then "On" else "Off", RuleCountText(RuleCount(config.summary)))
  }

  /** One status per environment the flag has a configuration for, in the given order (not sorted). */
  function Statuses(envs: seq<Environment>, configs: map<string, FlagEnvironmentConfig>): (statuses: seq<EnvStatus>)
  {
    if envs == [] then []
    else if envs[0].key in configs then [StatusOf(envs[0], configs[envs[0].key])] + Statuses(envs[1..], configs)
    else Statuses(envs[1..], configs)
  }

  /** The status line of an environment the flag page keeps. */
  function EntryStatus(e: EnvEntry): (status: EnvStatus)
    ensures forall env: Environment :: env.name == e.name ==> status == StatusOf(env, e.config)
  {
    StatusOf(Environment(e.key, e.name, e.color, false), e.config)
  }

  function EntryStatuses(entries: seq<EnvEntry>): (statuses: seq<EnvStatus>)
    ensures |statuses| == |entries|
  {
    if entries == [] then [] else [EntryStatus(entries[0])] + EntryStatuses(entries[1..])
  }

  /**
   * The card lists the same environments as the flag page's filter, in the
   * order given rather than rank order: one status per kept entry, in turn.
   */
  lemma {:induction false} StatusesFollowConfigured(envs: seq<Environment>, configs: map<string, FlagEnvironmentConfig>)
    ensures Statuses(envs, configs) == EntryStatuses(Configured(envs, configs))
  {
    if envs != [] {
      var rest := envs[1..];
      StatusesFollowConfigured(rest, configs);
      if envs[0].key in configs {
        var entries := Configured(envs, configs);
        assert entries == [EntryFor(envs[0], configs)] + Configured(rest, configs);
        assert entries[1..] == Configured(rest, configs);
      }
    }
  }

  /** The most tags a card shows. */
  const MaxTags := 5

  /** The first five tags and, when there are more, a `+N` badge counting the rest. */
  datatype TagsView = TagsView(shown: seq<string>, more: Option<string>)

  function Tags(tags: seq<string>): (view: Option<TagsView>)
    ensures view.None? <==> tags == []
    ensures view.Some? ==> view.value.shown == tags[..if |tags| <= MaxTags then |tags| else MaxTags]
    ensures view.Some? ==> (view.value.more.Some? <==> |tags| > MaxTags)
    ensures view.Some? && view.value.more.Some? ==> view.value.more.value == "+" + IntToString(|tags| - MaxTags)
  {
    if tags == [] then None
    else Some(TagsView(
      tags[..if |tags| <= MaxTags then |tags| else MaxTags],
      if |tags| > MaxTags then Some("+" + IntToString(|tags| - MaxTags)) else None))
  }

  /** Every tag is accounted for: the shown ones are a prefix of the tags and the badge counts exactly the rest. */
  lemma TagsAccountedFor(tags: seq<string>)
    requires tags != []
    ensures var v := Tags(tags).value;
      |v.shown| + (if v.more.Some? then ParseInt(v.more.value[1..]) else 0) == |tags|
  {
    var v := Tags(tags).value;
    if v.more.Some? {
      IntToStringRoundTrip(|tags| - MaxTags);
      assert v.more.value[1..] == IntToString(|tags| - MaxTags);
    }
  }

  // ---------------------------------------------------------------------
  // The card
  // ---------------------------------------------------------------------

  datatype CardView = CardView(
    name: string,
    kindBadge: string,
    key: string,
    description: Option<string>,
    environments: seq<EnvStatus>,
    tags: Option<TagsView>)

  function Card(flag: FeatureFlag, envs: seq<Environment>): (card: CardView)
    ensures card.name == flag.name && card.key == flag.key
    ensures card.kindBadge == KindLabel(flag.kind)
    ensures card.description.Some? <==> flag.description != ""
    ensures card.description.Some? ==> card.description.value == flag.description
    ensures card.environments == Statuses(envs, flag.environments)
    ensures card.tags == Tags(flag.tags)
  {
    CardView(
      flag.name,
      KindLabel(flag.kind),
      flag.key,
      if flag.description != "" then Some(flag.description) else None,
      Statuses(envs, flag.environments),
      Tags(flag.tags))
  }
}
