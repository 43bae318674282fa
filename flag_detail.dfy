/**
 * The flag page (src/features/flags/FlagDetail.tsx): which environment
 * panels it shows and in what order, and the page's header and states.
 */
module FlagDetail {
  import opened Wrappers
  import opened FlagTypes
  import opened VariationsSection
  import opened StableSort

  // ---------------------------------------------------------------------
  // Environment ranks
  // ---------------------------------------------------------------------

  /** The canonical environment order. */
  const EnvOrder: seq<string> := ["local-dev", "dev", "test", "stage", "production"]

  /** `orderIndex`: the key's position in `EnvOrder`, or 5 (one past the end) for any other key. */
  function OrderIndex(key: string): (rank: nat)
    ensures rank <= |EnvOrder|
    ensures rank < |EnvOrder| <==> key in EnvOrder
    ensures rank < |EnvOrder| ==> EnvOrder[rank] == key
  {
    if key == "local-dev" then 0
    else if key == "dev" then 1
    else if key == "test" then 2
    else if key == "stage" then 3
    else if key == "production" then 4
    else 5
  }

  /** The canonical keys rank in their listed order, and any other key after all of them. */
  lemma CanonicalOrder(other: string)
    requires other !in EnvOrder
    ensures OrderIndex("local-dev") < OrderIndex("dev") < OrderIndex("test") < OrderIndex("stage")
      < OrderIndex("production") < OrderIndex(other)
  {
  }

  // ---------------------------------------------------------------------
  // Entries
  // ---------------------------------------------------------------------

  /** An environment that has a configuration for the flag, paired with it. */
  datatype EnvEntry = EnvEntry(key: string, name: string, color: string, config: FlagEnvironmentConfig)

  function Rank(e: EnvEntry): nat {
    OrderIndex(e.key)
  }

  /** `filter` then `map`: the configured environments, in their given order, each with its configuration. */
  function Configured(envs: seq<Environment>, configs: map<string, FlagEnvironmentConfig>): (entries: seq<EnvEntry>)
    ensures |entries| <= |envs|
    ensures forall i :: 0 <= i < |entries| ==> entries[i].key in configs && entries[i].config == configs[entries[i].key]
  {
    if envs == [] then []
    else
      var rest := Configured(envs[1..], configs);
      var e := envs[0];
      if e.key in configs then [EnvEntry(e.key, e.name, e.color, configs[e.key])] + rest else rest
  }

  function EntryFor(e: Environment, configs: map<string, FlagEnvironmentConfig>): EnvEntry
    requires e.key in configs
  {
    EnvEntry(e.key, e.name, e.color, configs[e.key])
  }

  /** An entry is kept exactly when it pairs a given environment that has a configuration with that configuration. */
  lemma {:induction false} ConfiguredKeepsExactly(envs: seq<Environment>, configs: map<string, FlagEnvironmentConfig>, x: EnvEntry)
    ensures x in Configured(envs, configs) <==> exists e :: e in envs && e.key in configs && x == EntryFor(e, configs)
  {
    if envs != [] {
      ConfiguredKeepsExactly(envs[1..], configs, x);
      assert forall e :: e in envs <==> e == envs[0] || e in envs[1..];
    }
  }

  /**
   * `envEntries`: nothing without a flag or an environment list; otherwise
   * the configured environments sorted by `orderIndex` of their keys, the
   * sort being stable (ECMAScript 2019).
   */
  function EnvEntries(flag: Option<FeatureFlag>, envs: Option<seq<Environment>>): (entries: seq<EnvEntry>)
    ensures flag.None? || envs.None? ==> entries == []
    ensures flag.Some? && envs.Some? ==> multiset(entries) == multiset(Configured(envs.value, flag.value.environments))
    ensures SortedBy(entries, Rank)
    ensures flag.Some? && envs.Some? ==> forall k: nat {:trigger OfRank(entries, Rank, k)} ::
      OfRank(entries, Rank, k) == OfRank(Configured(envs.value, flag.value.environments), Rank, k)
  {
    if flag.None? || envs.None? then []
    else
      var kept := Configured(envs.value, flag.value.environments);
      SortPermutes(kept, Rank);
      SortSorted(kept, Rank);
      forall k: nat ensures OfRank(SortBy(kept, Rank), Rank, k) == OfRank(kept, Rank, k) {
        SortStable(kept, Rank, k);
      }
      SortBy(kept, Rank)
  }

  // ---------------------------------------------------------------------
  // The page
  // ---------------------------------------------------------------------

  /** The header of a loaded flag: name, kind badge, key, and the description when non-empty. */
  datatype FlagHeader = FlagHeader(name: string, kindBadge: string, key: string, description: Option<string>)

  datatype FlagPage =
    | Loading
    | LoadFailed(message: string, detail: Option<string>)
    | Blank
    | Loaded(header: FlagHeader, variations: VariationsView, environments: seq<EnvEntry>, emptyNotice: Option<string>)

  /**
   * A spinner while either request is loading, the failure message after an
   * error, nothing when no flag arrived, and otherwise the header, the
   * variations and one panel per entry, with a notice when there are none.
   */
  function Page(flagLoading: bool, envsLoading: bool, isError: bool, errorMessage: Option<string>,
                flag: Option<FeatureFlag>, envs: Option<seq<Environment>>): (page: FlagPage)
    ensures page.Loading? <==> flagLoading || envsLoading
    ensures page.LoadFailed? <==> !flagLoading && !envsLoading && isError
    ensures page.LoadFailed? ==> page.message == "Failed to load flag details" && page.detail == errorMessage
    ensures page.Blank? <==> !flagLoading && !envsLoading && !isError && flag.None?
    ensures page.Loaded? ==> page.header.name == flag.value.name && page.header.key == flag.value.key
    ensures page.Loaded? ==> page.header.kindBadge == KindLabel(flag.value.kind)
    ensures page.Loaded? ==> (page.header.description.Some? <==> flag.value.description != "")
    ensures page.Loaded? && page.header.description.Some? ==> page.header.description.value == flag.value.description
    ensures page.Loaded? ==> page.variations == VariationsList(flag.value.variations)
    ensures page.Loaded? ==> page.environments == EnvEntries(flag, envs)
    ensures page.Loaded? ==> (page.emptyNotice.Some? <==> page.environments == [])
    ensures page.Loaded? && page.emptyNotice.Some? ==> page.emptyNotice.value == "No environment configurations found for this flag."
  {
    if flagLoading || envsLoading then Loading
    else if isError then LoadFailed("Failed to load flag details", errorMessage)
    else if flag.None? then Blank
    else
      var f := flag.value;
      var entries := EnvEntries(flag, envs);
      Loaded(
        FlagHeader(f.name, KindLabel(f.kind), f.key, if f.description != "" then Some(f.description) else None),
        VariationsList(f.variations),
        entries,
        if entries == [] then Some("No environment configurations found for this flag.") else None)
  }
}
