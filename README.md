# Light Darkly flag explanations, modelled in Dafny

Light Darkly is a read-only viewer for feature-flag configurations fetched
from a flag-management service. This project models the part of the viewer
that turns a fetched configuration into explanatory text, and proves
properties of that model. It covers:

- the entities the service returns (flags, variations, rules, clauses,
  rollouts, targets, prerequisites, per-environment configurations);
- the three ways a variation value becomes text: `JSON.stringify(v)`,
  `JSON.stringify(v, null, 2)` and `String(v)`;
- the clause describer and the outcome explainers of the targeting-rule,
  individual-target, default-rule and prerequisite sections;
- the flag page's environment ordering (filter, then stable sort by rank);
- the flag card summary (rule counts, On/Off, tag truncation);
- the pagination control;
- the load-more accumulators of the flag list and the project list, which
  are classes whose methods update their fields as the components do;
- the HTTP Basic authentication gate of the deployed app (`api/auth.ts`)
  and of the development server (`vite.config.ts`).

React output is modelled as records holding the strings each element shows.
JavaScript runtime behaviour the source relies on is written out:
- `split` and `join` on one character;
- integer printing;
- `JSON.stringify` in compact and indented form, with its string escaping;
- `String()`;
- `toFixed(1)`;
- the stable `Array.prototype.sort` required since ECMAScript 2019.

Each one comes with a reference reading and a round-trip or agreement lemma.

Modules follow the source files. The helper modules are:

| module | contents |
|---|---|
| `Wrappers` | `Option` |
| `Text` | integers, split and join |
| `Json` | the closed JSON datatype and its three renderings |
| `StableSort` | a generic stable insertion sort with permutation, ordering and stability lemmas |
| `BasicAuth` | the header reading and challenge shared by both gates |

## Model

| member | source | states |
|---|---|---|
| FlagTypes.Lookup | src/features/flags/sections/PrerequisitesSection.tsx:27-29 | `variations[i]` is present exactly when `0 <= i < length`, and is then the i-th variation |
| FlagTypes.OutcomeOf | src/features/flags/sections/TargetingRulesSection.tsx:102-111 | a present variation index (0 included) wins over a rollout; a rollout is used only without one; nothing is specified exactly when both are absent |
| FlagTypes.KindLabel | src/features/flags/FlagDetail.tsx:80-81 | the badge is `Boolean` iff the kind is boolean, and `Multivariate` iff it is multivariate |
| Text.NatToString | src/features/flags/sections/TargetingRulesSection.tsx:93 | decimal digits, at least one, with no leading zero |
| Text.IntToString | src/features/flags/sections/TargetingRulesSection.tsx:106 | an integer prints with a leading minus sign exactly when it is negative |
| Text.Counted | src/features/flags/FlagList.tsx:148 | `1 noun` for a count of exactly 1, `N nouns` for every other count |
| Text.IntToStringRoundTrip | src/features/flags/sections/TargetingRulesSection.tsx:106 | reading a printed integer back gives the integer |
| Text.IntToStringInjective | src/features/flags/sections/TargetingRulesSection.tsx:70 | two integers print the same iff they are equal |
| Text.Split | api/auth.ts:16 | `split` on one character gives at least one part, exactly one iff the separator is absent, and no part contains the separator |
| Text.JoinAvoids | api/auth.ts:20 | a character in neither the separator nor any part is not in the joined text |
| Text.JoinSplit | api/auth.ts:19-20 | joining the parts of a split with the separator gives the original text back |
| Text.SplitJoin | src/features/flags/Pagination.tsx:24 | splitting a join of separator-free parts gives the parts back |
| Text.SplitAtFirst | api/auth.ts:19-20 | the first part plus the re-joined rest cut the text at the first occurrence of the separator, in both directions |
| Text.SplitHead | vite.config.ts:23 | the first part is `a` iff the text starts with `a`, which is separator-free, and then ends or continues with the separator |
| Json.EscapeChar | src/features/flags/sections/TargetingRulesSection.tsx:29 | a character is written as itself iff it is not a quote, a backslash or a control character; otherwise it becomes a backslash escape |
| Json.UnescapeEscape | src/features/flags/sections/TargetingRulesSection.tsx:29 | reading an escaped string literal body back gives the original string |
| Json.EscapeStringIdentity | src/features/flags/sections/TargetingRulesSection.tsx:28-29 | escaping never shortens a string, and leaves it unchanged iff it has no quote, backslash or control character |
| Json.PrettyBreaksOnlyContainers | src/features/flags/sections/VariationsSection.tsx:10 | indented JSON has a line break iff the value is a non-empty array or object; otherwise it equals the compact text |
| Json.StringifyOneLine | src/features/flags/sections/TargetingRulesSection.tsx:92 | compact JSON never contains a line break |
| Json.PrettyMinifiesToCompact | src/features/flags/sections/VariationsSection.tsx:10 | dropping the whitespace between tokens of `JSON.stringify(v, null, 2)` gives `JSON.stringify(v)` |
| Json.JsStringVersusStringify | src/features/flags/sections/PrerequisitesSection.tsx:28 | `String(v)` equals compact JSON on null, booleans and numbers; on a string, JSON is the quoted and escaped form of `String(v)` and always differs from it |
| ValueFormat.FormatVariationValue | src/features/flags/sections/TargetingRulesSection.tsx:26-30 | title-case `True`/`False`, a string between quotes with no escaping, compact JSON for any other value |
| ValueFormat.FormatAgreesWithJson | src/features/flags/sections/DefaultRuleSection.tsx:11-15 | the formatter equals `JSON.stringify` iff the value is not a boolean and is not a string holding a character JSON escapes |
| ValueFormat.DescribeVariation | src/features/flags/sections/IndividualTargetsSection.tsx:27-32 | an index in range shows the formatted value; any other index shows the placeholder and the index |
| ValueFormat.FormattedValueHead | src/features/flags/sections/TargetingRulesSection.tsx:104-106 | a formatted value is never empty and never starts with `V` or `v` |
| ValueFormat.PlaceholderDistinct | src/features/flags/sections/TargetingRulesSection.tsx:104-106 | the `Variation N` or `var N` placeholder of a missing index never equals the text of an existing variation |
| TargetingRules.FormatClauseOp | src/features/flags/sections/TargetingRulesSection.tsx:10-24 | each of the ten operator codes gets its fixed phrase; any other code is returned unchanged |
| TargetingRules.OperatorPhraseNamesOperator | src/features/flags/sections/TargetingRulesSection.tsx:11-22 | the phrase of a known operator reads back as that operator, so no two operators share a phrase |
| TargetingRules.DescribeOperands | src/features/flags/sections/TargetingRulesSection.tsx:91-93 | up to 3 operands are all shown; beyond 3 exactly the first 3 are shown and `len - 3` are counted; each shown operand is its compact JSON |
| TargetingRules.OperandsAccountedFor | src/features/flags/sections/TargetingRulesSection.tsx:91-93 | shown plus hidden operands is the operand count, and some are hidden iff there are more than 3 |
| TargetingRules.DescribeClause | src/features/flags/sections/TargetingRulesSection.tsx:80-93 | the `kind.` prefix appears iff the context kind is set and non-empty; the operator is preceded by `NOT ` iff negated; the attribute and operands are kept |
| TargetingRules.OperandsCountReadsBack | src/features/flags/sections/TargetingRulesSection.tsx:91-93 | for every operand list, the operand text (`OperandsText`) ends in ` +N more` iff more than 3 operands are given, and N then reads back as how many are left out; no operand's JSON can pass for the count |
| TargetingRules.ClauseTextReadsBack | src/features/flags/sections/TargetingRulesSection.tsx:80-88 | every clause line (`ClauseText`) opens with `IF `, the context kind and a dot when it is truthy, the attribute and a space; `NOT ` follows iff the clause is negated (for a known operator); the operator's phrase follows that |
| TargetingRules.ClauseTextCountReadsBack | src/features/flags/sections/TargetingRulesSection.tsx:80-93 | every clause line ends in ` +N more` iff more than 3 operands are given, N reading back as how many are left out |
| TargetingRules.NearestTenth | src/features/flags/sections/TargetingRulesSection.tsx:37 | the chosen tenth is within half a tenth of the weight |
| TargetingRules.PercentTextRoundTrip | src/features/flags/sections/TargetingRulesSection.tsx:37 | `(w/1000).toFixed(1)` reads back as a tenth within half a tenth of `w/1000`, and exactly as `w/100` tenths when `w` is a multiple of 100 |
| TargetingRules.TenthsRead | src/features/flags/sections/TargetingRulesSection.tsx:37 | whole part, point and tenths digit read back as the number of tenths |
| TargetingRules.NegativeTenthsRead | src/features/flags/sections/TargetingRulesSection.tsx:37 | with a leading minus sign the same text reads back negated |
| TargetingRules.RolloutEntries | src/features/flags/sections/TargetingRulesSection.tsx:32-45 | one entry per weighted variation in stored order, each the variation's value or `var N`, then ` (P%)` |
| TargetingRules.ExplainOutcome | src/features/flags/sections/TargetingRulesSection.tsx:102-111 | a present index serves its value or `Variation N` and ignores any rollout; otherwise a rollout is listed; otherwise the fallback text is shown |
| TargetingRules.DescribeRule | src/features/flags/sections/TargetingRulesSection.tsx:67-113 | badge `Rule idx+1`, the description only when non-empty, every clause in order, and the outcome with fallback `Unknown` |
| TargetingRules.RulesSection | src/features/flags/sections/TargetingRulesSection.tsx:49-119 | the no-rules message iff the list is empty; otherwise one rule view per rule, in stored order |
| TargetingRules.RuleBadgesDistinct | src/features/flags/sections/TargetingRulesSection.tsx:70 | no two rules get the same badge |
| TargetingRules.QuarterRolloutExample | src/features/flags/sections/TargetingRulesSection.tsx:32-45 | weights 75000/25000 over `[false, true]` show `False (75.0%)` and `True (25.0%)` |
| TargetingRules.TruncatedOperandsExample | src/features/flags/sections/TargetingRulesSection.tsx:91-93 | four operands show as `1, 2, 3 +1 more` |
| TargetingRules.OutOfRangeRuleExample | src/features/flags/sections/TargetingRulesSection.tsx:104-106 | index 99 of a two-variation flag shows `Variation 99` |
| DefaultRule.DefaultRuleSection | src/features/flags/sections/DefaultRuleSection.tsx:17-79 | the ON line explains the fallthrough with fallback `Not configured`; the OFF line appears iff an off variation is set, 0 included; the status is `ON` iff `isOn` |
| DefaultRule.DefaultRuleFactsIndependent | src/features/flags/sections/DefaultRuleSection.tsx:31-74 | the ON line depends only on the fallthrough, the OFF line only on the off variation, and the status only on `isOn` |
| DefaultRule.FixedFallthroughHidesRollout | src/features/flags/sections/DefaultRuleSection.tsx:33-39 | with a fixed fallthrough variation, the rollout stored beside it changes nothing |
| DefaultRule.BooleanFlagScenario | src/features/flags/sections/DefaultRuleSection.tsx:31-74 | fallthrough 1 and off 0 of `[false, true]`, on, show `True`, `False` and `ON` |
| DefaultRule.HalfSplitScenario | src/features/flags/sections/DefaultRuleSection.tsx:39-51 | a 50000/50000 rollout shows two `(50.0%)` shares |
| IndividualTargets.DescribeTarget | src/features/flags/sections/IndividualTargetsSection.tsx:27-43 | the header is the served variation's text (or `Variation N`) and a colon; the values are the target's own, verbatim |
| IndividualTargets.TargetsSection | src/features/flags/sections/IndividualTargetsSection.tsx:15-51 | nothing iff there are no targets; otherwise the heading names the environment and there is one group per target, in order |
| IndividualTargets.GroupValuesOfTargets | src/features/flags/sections/IndividualTargetsSection.tsx:26-47 | the groups' values, group after group, are the targets' values, target after target |
| IndividualTargets.TargetsShowEveryValue | src/features/flags/sections/IndividualTargetsSection.tsx:36-43 | every stored context key is shown, in stored order, and nothing else |
| IndividualTargets.BooleanTargetsScenario | src/features/flags/sections/IndividualTargetsSection.tsx:26-47 | two targets on variations 1 and 0 give groups `True:` and `False:`, not merged or reordered |
| VariationsSection.ListFormatValue | src/features/flags/sections/VariationsSection.tsx:7-11 | lower-case booleans, a string between quotes with no escaping, indented JSON otherwise |
| VariationsSection.ListVersusRuleFormat | src/features/flags/sections/VariationsSection.tsx:7-11 | the list format equals the rule format iff the value is neither a boolean nor a non-empty array or object |
| VariationsSection.ListFormatIsLaidOutJson | src/features/flags/sections/VariationsSection.tsx:10 | outside booleans and strings, the list format differs from the rule format only by whitespace between tokens |
| VariationsSection.ShownText | src/features/flags/sections/VariationsSection.tsx:30-36 | a name or description is shown iff it is present and non-empty |
| VariationsSection.DescribeVariationRow | src/features/flags/sections/VariationsSection.tsx:20-38 | a row shows its 0-based position, the list-formatted value, and the name and description when non-empty |
| VariationsSection.VariationsList | src/features/flags/sections/VariationsSection.tsx:13-43 | one row per variation, in order, the i-th row describing variation i |
| VariationsSection.RowPositionIsIndex | src/features/flags/sections/VariationsSection.tsx:23 | a row's position label reads back as the index that rules and targets use for that variation |
| Prerequisites.RequiredValue | src/features/flags/sections/PrerequisitesSection.tsx:27-29 | an index in range shows `String(value)`; any other shows `Variation N` |
| Prerequisites.DescribePrerequisite | src/features/flags/sections/PrerequisitesSection.tsx:19-31 | a line reads `Requires`, the flag key, `=`, and the required value |
| Prerequisites.PrerequisitesSection | src/features/flags/sections/PrerequisitesSection.tsx:8-36 | nothing iff there are no prerequisites; otherwise one line per prerequisite, in order |
| Prerequisites.FalsyValuesStillShown | src/features/flags/sections/PrerequisitesSection.tsx:27-28 | `false`, `0`, `""` and `null` values are shown as such, never as the placeholder |
| Prerequisites.RequiredValueVersusJson | src/features/flags/sections/PrerequisitesSection.tsx:28 | a string shows unquoted (JSON would quote it); null, booleans and numbers show as their JSON |
| EnvironmentSection.OrEmpty | src/features/flags/EnvironmentSection.tsx:63 | `list ?? []`: a missing list is empty, a present one is kept |
| EnvironmentSection.Body | src/features/flags/EnvironmentSection.tsx:60-82 | rules, targets, default rule and prerequisites, in that order, all with the flag's variations; missing lists become empty, and the default section gets `fallthrough`, `offVariation` and `on` unchanged |
| EnvironmentSection.MissingListsRenderEmpty | src/features/flags/EnvironmentSection.tsx:62-82 | missing rules show the no-rules message; the targets and prerequisites sections vanish iff their list is missing or empty; the status follows `on` |
| EnvironmentSection.ContextTargetsIgnored | src/features/flags/EnvironmentSection.tsx:60-82 | `contextTargets` never affects what is shown |
| EnvironmentSection.PrerequisitesUseOwnVariations | src/features/flags/EnvironmentSection.tsx:79-82 | a prerequisite's value is looked up in this flag's own variations |
| EnvironmentSection.EnvironmentPanel.constructor | src/features/flags/EnvironmentSection.tsx:19-27 | a panel starts open iff `defaultOpen` says so, closed by default |
| EnvironmentSection.EnvironmentPanel.Toggle | src/features/flags/EnvironmentSection.tsx:36 | a header click flips `open` |
| EnvironmentSection.EnvironmentPanel.View | src/features/flags/EnvironmentSection.tsx:34-84 | the header shows the name and `ON` iff `config.on`; the sections render iff the panel is open |
| EnvironmentSection.ClickTwice | src/features/flags/EnvironmentSection.tsx:27-36 | two clicks on a fresh panel leave it closed with no sections |
| FlagDetail.OrderIndex | src/features/flags/FlagDetail.tsx:21-25 | the rank is a key's position in the canonical list, and 5 for any other key |
| FlagDetail.CanonicalOrder | src/features/flags/FlagDetail.tsx:21-25 | local-dev, dev, test, stage and production rank in that order, ahead of every other key |
| FlagDetail.Configured | src/features/flags/FlagDetail.tsx:27-34 | every kept entry has a configuration and carries exactly that configuration |
| FlagDetail.ConfiguredKeepsExactly | src/features/flags/FlagDetail.tsx:27-34 | an entry is kept iff it pairs a given environment that has a configuration with that configuration |
| FlagDetail.EnvEntries | src/features/flags/FlagDetail.tsx:18-36 | empty without a flag or environments; otherwise a permutation of the configured entries, non-decreasing in rank, with each rank's entries in their input order |
| FlagDetail.Page | src/features/flags/FlagDetail.tsx:38-123 | a spinner while loading, `Failed to load flag details` with the error's message after an error, nothing without a flag; else a header with the flag's name, kind badge and key and its description iff non-empty, the variations and the ordered panels, plus `No environment configurations found for this flag.` iff there are none |
| StableSort.SortPermutes | src/features/flags/FlagDetail.tsx:35 | sorting keeps every element with its multiplicity |
| StableSort.SortSorted | src/features/flags/FlagDetail.tsx:35 | the sorted sequence never decreases in rank |
| StableSort.SortStable | src/features/flags/FlagDetail.tsx:35 | elements of equal rank come out in the order they went in |
| StableSort.InsertStable | src/features/flags/FlagDetail.tsx:35 | one insertion step appends the new element to its own rank and keeps every rank's order |
| FlagCard.FoldRulesIsSum | src/features/flags/FlagCard.tsx:38-43 | the left fold of `sum + v.rules` from an accumulator is the accumulator plus the total of the `rules` counts |
| FlagCard.RuleCountIsTotal | src/features/flags/FlagCard.tsx:38-43 | the rule count is the total over the summary's variations, and 0 without a summary |
| FlagCard.RuleCountExample | src/features/flags/FlagCard.tsx:38-43 | counts 2 and 3 give 5; no summary gives 0 |
| FlagCard.RuleCountText | src/features/flags/FlagCard.tsx:57-61 | shown iff the count is positive, as `(1 rule)` or `(N rules)` |
| FlagCard.StatusOf | src/features/flags/FlagCard.tsx:45-62 | the environment's name, `On` iff the configuration is on, and the rule-count text |
| FlagCard.EntryStatus | src/features/flags/FlagCard.tsx:45-62 | a kept entry's status line is the one `StatusOf` gives any environment of that name with that configuration |
| FlagCard.StatusesFollowConfigured | src/features/flags/FlagCard.tsx:34-36 | the card lists exactly the configured environments, in input order and unsorted |
| FlagCard.Tags | src/features/flags/FlagCard.tsx:67-75 | nothing without tags; otherwise the first five, and a `+N` badge with N the rest iff there are more than five |
| FlagCard.TagsAccountedFor | src/features/flags/FlagCard.tsx:67-75 | shown tags plus the badge's number is the tag count |
| FlagCard.Card | src/features/flags/FlagCard.tsx:12-79 | the flag's name and key, the kind badge, the description only when non-empty, the configured environments' statuses, and the tags view |
| Pagination.PaginationControl | src/features/flags/Pagination.tsx:9-37 | hidden iff `totalPages <= 1`; Prev disabled iff `currentPage <= 1` and asks for `currentPage - 1`; Next disabled iff `currentPage >= totalPages` and asks for `currentPage + 1`; the caption is `Page c of t` |
| Pagination.NavigationStaysInRange | src/features/flags/Pagination.tsx:15-28 | an enabled button asks for a page in range, and an inner page has both buttons enabled |
| Pagination.CaptionReadsBack | src/features/flags/Pagination.tsx:24 | the caption's two numbers read back as the current page and the page count |
| Pagination.PaginationExamples | src/test/pagination.test.tsx:7-58 | the hidden, disabled, caption and target cases the component's tests pin down |
| FlagList.Search | src/features/flags/FlagList.tsx:51-56 | a search sets the text and resets the offset, the list and the applied key |
| FlagList.LoadMore | src/features/flags/FlagList.tsx:58-60 | the offset grows by exactly 5 and nothing else changes |
| FlagList.ArriveApplies | src/features/flags/FlagList.tsx:38-46 | a page with a new key records that key, and replaces the list at offset 0 or appends to it otherwise |
| FlagList.RedeliveryIgnored | src/features/flags/FlagList.tsx:33-36 | once a page is applied, anything redelivered for the same search and offset changes nothing |
| FlagList.InvInitial | src/features/flags/FlagList.tsx:18-21 | the initial state meets the invariant |
| FlagList.InvPreserved | src/features/flags/FlagList.tsx:29-60 | search, load-more and page arrival keep offsets whole pages and the applied key on the current search and not ahead |
| FlagList.BrowseAccumulates | src/features/flags/FlagList.tsx:29-60 | receiving the first page and loading page after page shows exactly those pages' flags in order |
| FlagList.HasMore | src/features/flags/FlagList.tsx:49 | more iff a page is present with at least 5 flags |
| FlagList.EmptyNoticeFor | src/features/flags/FlagList.tsx:113-121 | `No matching flags` iff a search is in force, else `No feature flags` |
| FlagList.Screen | src/features/flags/FlagList.tsx:62-151 | the spinner case; `Failed to load feature flags` with the error's message after an error; one card per accumulated flag; the empty notice `EmptyNoticeFor(search)` iff there are none; Load more iff `hasMore`, disabled iff fetching and captioned `Loading...` then, `Load more` otherwise; and the `Showing N flag(s)` footer |
| FlagList.FlagListComponent.constructor | src/features/flags/FlagList.tsx:18-21 | the list starts with no search, offset 0, nothing accumulated and nothing applied |
| FlagList.FlagListComponent.HandleSearch | src/features/flags/FlagList.tsx:51-56 | the new state is the search transition and keeps the invariant |
| FlagList.FlagListComponent.HandleLoadMore | src/features/flags/FlagList.tsx:58-60 | the new state is the load-more transition and keeps the invariant |
| FlagList.FlagListComponent.PageArrived | src/features/flags/FlagList.tsx:29-47 | the new state is the page-arrival transition and keeps the invariant |
| ProjectList.LoadMore | src/features/projects/ProjectList.tsx:35-37 | the offset grows by exactly 20 and nothing else changes |
| ProjectList.ArriveApplies | src/features/projects/ProjectList.tsx:24-30 | a page at a new offset records it, and replaces the list at offset 0 or appends to it otherwise |
| ProjectList.RedeliveryIgnored | src/features/projects/ProjectList.tsx:22 | once a page is applied at an offset, anything redelivered there changes nothing |
| ProjectList.InvPreserved | src/features/projects/ProjectList.tsx:20-37 | every event keeps offsets whole pages and the applied offset not ahead of the current one |
| ProjectList.RunMonotone | src/features/projects/ProjectList.tsx:24-37 | over any run of events the offset never decreases; once past the first page, the list never shrinks and keeps its prefix |
| ProjectList.HasMore | src/features/projects/ProjectList.tsx:33 | more iff a page is present with at least 20 projects |
| ProjectList.CardOf | src/features/projects/ProjectList.tsx:72-95 | name, key and tags as stored, and `N environment(s)` iff the project lists its environments |
| ProjectList.Screen | src/features/projects/ProjectList.tsx:39-115 | the spinner iff loading with nothing accumulated; `Failed to load projects` with the error's message after an error; `No projects found` / `No LaunchDarkly projects are accessible with this API token.` when there are none; else one card per project, Load more iff `hasMore`, disabled iff fetching and captioned `Loading...` then, `Load more` otherwise; and the `Showing N project(s)` footer |
| ProjectList.ProjectListComponent.constructor | src/features/projects/ProjectList.tsx:14-16 | the list starts at offset 0 with nothing accumulated or applied |
| ProjectList.ProjectListComponent.HandleLoadMore | src/features/projects/ProjectList.tsx:35-37 | the new state is the load-more transition and keeps the invariant |
| ProjectList.ProjectListComponent.PageArrived | src/features/projects/ProjectList.tsx:20-31 | the new state is the page-arrival transition and keeps the invariant |
| BasicAuth.EncodedCredentials | api/auth.ts:14-17 | a token is found only when it is non-empty and has no space |
| BasicAuth.EncodedCredentialsExactly | api/auth.ts:14-17 | the header yields a token iff it reads `Basic`, one space, the token, then nothing or a space |
| BasicAuth.LowercaseSchemeRefused | vite.config.ts:20-21 | a scheme in another case is refused |
| BasicAuth.DoubleSpaceRefused | vite.config.ts:20-21 | two spaces before the token are refused |
| BasicAuth.WellFormedHeader | api/auth.ts:16-17 | `Basic`, one space and a token yield the token |
| ApiAuth.SplitCredentialsAtFirstColon | api/auth.ts:19-20 | with a colon, the text splits into user and password iff it is a colon-free user, a colon and the password; without one, the password is empty |
| ApiAuth.Handler | api/auth.ts:5-29 | the request is served whenever the gate is off, and challenged with 401 and the realm when it is on and the header carries no token |
| ApiAuth.HandlerAdmitsExactly | api/auth.ts:14-28 | with the gate on, the request is served iff the token decodes to the configured user, a colon and the configured password |
| ApiAuth.NoColonRejected | api/auth.ts:19-21 | decoded text without a colon is always challenged |
| DevAuth.FirstTwoParts | vite.config.ts:23 | the password part is missing iff the decoded text has no colon |
| DevAuth.Middleware | vite.config.ts:10-33 | `next()` whenever the gate is off; a 401 challenge when it is on and the header carries no token |
| DevAuth.MiddlewareAdmitsExactly | vite.config.ts:18-32 | with the gate on, admitted iff the decoded text starts with user, colon and password, neither holding a colon, and then ends or continues with a colon |
| DevAuth.ColonPasswordNeverAdmitted | vite.config.ts:23-24 | a configured password containing a colon is never accepted |
| DevAuth.ColonPasswordHandlerExample | api/auth.ts:19-22 | `admin:a:b` is accepted by the deployed handler for password `a:b` |
| DevAuth.ColonPasswordMiddlewareExample | vite.config.ts:23-24 | the same credentials are refused by the middleware |
| DevAuth.TrailingTextMiddlewareExample | vite.config.ts:23-24 | `admin:pw:junk` is accepted by the middleware for password `pw` |
| DevAuth.TrailingTextHandlerExample | api/auth.ts:19-22 | the same credentials are refused by the deployed handler |
| DevAuth.FirstColonParts | vite.config.ts:23 | the corrected destructuring: the password is missing iff the decoded text has no colon; otherwise the text is the colon-free user-id, a colon and the password |
| DevAuth.CorrectedMiddleware | vite.config.ts:10-33 | the middleware with the first-colon split: `next()` when the gate is off, a challenge without a token |
| DevAuth.CorrectedMiddlewareAdmitsExactly | api/auth.ts:19-22 | the corrected middleware admits exactly `user:password`, colons in the password included, and agrees with the deployed handler on every request |
| DevAuth.CorrectionAgreesWithoutExtraColons | vite.config.ts:23-24 | without a colon in the password and with at most one colon in the decoded text, the middleware as written and the corrected one agree |

## Left out

- Json.JsonValue: a JSON number is an integer of magnitude at most 2^53 - 1 (`Number.MAX_SAFE_INTEGER`), the range a double holds exactly and prints as plain digits. Larger integers, which `JSON.parse` rounds and JavaScript prints in exponent form from 10^21 on (`1e+21`), are not modelled. Fractional numbers, exponents, `NaN` and `Infinity` (which `JSON.stringify` writes as `null`) are not modelled, and neither is `undefined` or a function value.
- Object keys are kept in the order the service sends them. JavaScript's rule that integer-like keys come first is not modelled.
- Strings are sequences of Unicode scalar values, so lone UTF-16 surrogates cannot occur, and their `\u` escapes are not modelled.
- TargetingRules.PercentText: requires `ExactWeight`. It does not model a weight whose percentage ends in exactly five hundredths (`|w| % 100 == 50`), because the rounding of `toFixed(1)` then follows the binary double. It also leaves out weights of magnitude 10^15 and above.
- TargetingRules.RolloutEntries: requires every weight to satisfy `ExactWeight`, for the same reason. `ExplainOutcome` (through `ExactOutcome`), `DescribeRule` (through `ExactRule`), `RulesSection`, `DefaultRuleSection`, `Body` and `EnvironmentPanel` inherit this requirement.
- TargetingRules.FormatClauseOp: the phrase table is a finite map with pass-through. A code such as `constructor` that hits `Object.prototype` in the source is not modelled.
- FlagDetail.Configured, FlagDetail.EnvEntries and FlagCard.Statuses: a flag's configurations are a finite map, and an environment is kept exactly when its key is in it. In the source the test is a property read on a parsed object (src/features/flags/FlagDetail.tsx:28, src/features/flags/FlagCard.tsx:35-36). An unconfigured environment whose key names an `Object.prototype` member, such as `toString`, `constructor` or `valueOf`, finds that inherited function, which is truthy, and is kept with a function as its configuration. The model drops such an environment.
- Base64 and UTF-8 decoding by Node's `Buffer` is a function parameter of `Handler` and `Middleware`. Nothing is assumed about it.
- HTTP itself is left out: the request and response objects and `serveIndex`, which reads `dist/index.html` and answers 200, or 500 on failure. The gates return a verdict: admit, or a 401 challenge.
- Fetching, react-query hooks, the search debounce, local storage, dark mode, routing, date formatting, CSS classes and React keys are left out. Pages arrive in the list models as an arbitrary input.
- A flag whose `environments` field is missing at run time is modelled as one with an empty map. Both give no entries.
- Prerequisites are resolved against the flag's own variations, as the code does (src/features/flags/EnvironmentSection.tsx:79-82). A prerequisite really names a variation of another flag, so this is likely a latent bug. The model follows the code and states the behaviour in `PrerequisitesUseOwnVariations`.
- TargetingRules.ClauseTextReadsBack: `NOT ` after the lead is tied to negation in both directions only for the ten known operators. An unknown operator code is shown as it is and may itself begin with `NOT `.
- FlagList.Screen and ProjectList.Screen render the Retry button's action (`refetch`) as nothing: it is a network call.
- `Array.prototype.sort` is modelled by its result. The sorted list is fixed by being a permutation, ordered by rank and stable. Which comparisons the engine makes is not modelled.

## Findings

| source | as written | input that shows it | evidently intended | confidence | as-written member | corrected member |
|---|---|---|---|---|---|---|
| vite.config.ts:23-24 | `const [u, p] = decoded.split(":")` takes only the text between the first and second colon as the password | user `admin`, password `a:b`, decoded credentials `admin:a:b`: refused by the middleware, though the deployed handler accepts them; and `admin:pw:junk` is accepted for password `pw` | split at the first colon, as api/auth.ts:19-20 does and section 2 of RFC 7617 requires | not executed | DevAuth.Middleware, DevAuth.ColonPasswordMiddlewareExample, DevAuth.TrailingTextMiddlewareExample | DevAuth.CorrectedMiddleware, DevAuth.CorrectedMiddlewareAdmitsExactly |
