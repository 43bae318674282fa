/**
 * The targeting-rules section: each rule's clauses in words and what the
 * rule serves (src/features/flags/sections/TargetingRulesSection.tsx). The
 * rollout display and the outcome branching are shared with the default
 * rule section, which repeats them inline.
 */
module TargetingRules {
  import opened Wrappers
  import opened Text
  import opened Json
  import opened FlagTypes
  import opened ValueFormat

  // ---------------------------------------------------------------------
  // Clauses
  // ---------------------------------------------------------------------

  /** The operator codes the viewer puts into words. */
  const OperatorPhrases: map<string, string> := map[
    "in" := "is one of",
    "endsWith" := "ends with",
    "startsWith" := "starts with",
    "matches" := "matches",
    "contains" := "contains",
    "lessThan" := "<",
    "lessThanOrEqual" := "<=",
    "greaterThan" := ">",
    "greaterThanOrEqual" := ">=",
    "segmentMatch" := "is in segment"
  ]

  /** `formatClauseOp`: the phrase for a known operator code, any other code as it is. */
  function FormatClauseOp(op: string): (phrase: string)
    ensures op == "in" ==> phrase == "is one of"
    ensures op == "endsWith" ==> phrase == "ends with"
    ensures op == "startsWith" ==> phrase == "starts with"
    ensures op == "matches" ==> phrase == "matches"
    ensures op == "contains" ==> phrase == "contains"
    ensures op == "lessThan" ==> phrase == "<"
    ensures op == "lessThanOrEqual" ==> phrase == "<="
    ensures op == "greaterThan" ==> phrase == ">"
    ensures op == "greaterThanOrEqual" ==> phrase == ">="
    ensures op == "segmentMatch" ==> phrase == "is in segment"
    ensures op !in OperatorPhrases ==> phrase == op
  {
    if op in OperatorPhrases then OperatorPhrases[op] else op
  }

  /** Reads a phrase back as the operator code it names (the reference reading for `FormatClauseOp`). */
  function PhraseOperator(phrase: string): (op: Option<string>)
  {
    match phrase
    case "is one of" => Some("in")
    case "ends with" => Some("endsWith")
    case "starts with" => Some("startsWith")
    case "matches" => Some("matches")
    case "contains" => Some("contains")
    case "<" => Some("lessThan")
    case "<=" => Some("lessThanOrEqual")
    case ">" => Some("greaterThan")
    case ">=" => Some("greaterThanOrEqual")
    case "is in segment" => Some("segmentMatch")
    case _ => None
  }

  /** The phrase of a known operator names it unambiguously: distinct operators never share a phrase. */
  lemma OperatorPhraseNamesOperator(op: string)
    requires op in OperatorPhrases
    ensures PhraseOperator(FormatClauseOp(op)) == Some(op)
  {
    assert op in OperatorPhrases.Keys;
    assert op == "in" || op == "endsWith" || op == "startsWith" || op == "matches" || op == "contains"
      || op == "lessThan" || op == "lessThanOrEqual" || op == "greaterThan" || op == "greaterThanOrEqual"
      || op == "segmentMatch";
  }

  /** The most operands a clause line shows before it summarises the rest. */
  const MaxShownOperands := 3

  /** A clause's operand list as shown: the leading operands JSON-encoded, and how many are left out. */
  datatype OperandsView = OperandsView(shown: seq<string>, hidden: nat)

  function DescribeOperands(values: seq<JsonValue>): (view: OperandsView)
    ensures |values| <= MaxShownOperands ==> |view.shown| == |values| && view.hidden == 0
    ensures |values| > MaxShownOperands ==> |view.shown| == MaxShownOperands && view.hidden == |values| - MaxShownOperands
    ensures forall i :: 0 <= i < |view.shown| ==> view.shown[i] == Stringify(values[i])
  {
    var n := if |values| <= MaxShownOperands then |values| else MaxShownOperands;
    OperandsView(seq(n, i requires 0 <= i < n => Stringify(values[i])), |values| - n)
  }

  /** The operand text: the shown operands joined by `", "`, then ` +N more` when some are left out. */
  function OperandsText(view: OperandsView): (t: string)
  {
    Join(", ", view.shown) + (if view.hidden > 0 then " +" + IntToString(view.hidden) + " more" else "")
  }

  /** Every operand is accounted for: shown ones in order from the first, and a count for the rest. */
  lemma OperandsAccountedFor(values: seq<JsonValue>)
    ensures |DescribeOperands(values).shown| + DescribeOperands(values).hidden == |values|
    ensures DescribeOperands(values).hidden > 0 <==> |values| > MaxShownOperands
  {
  }

  /** One clause line: `IF`, the context kind and a dot when there is one, the attribute, the operator phrase (after `NOT ` when negated), the operands. */
  datatype ClauseView = ClauseView(kindPrefix: Option<string>, attribute: string, operator: string, operands: OperandsView)

  function DescribeClause(c: Clause): (view: ClauseView)
    ensures view.kindPrefix.Some? <==> c.contextKind.Some? && c.contextKind.value != ""
    ensures view.kindPrefix.Some? ==> view.kindPrefix.value == c.contextKind.value + "."
    ensures view.attribute == c.attribute
    ensures view.operator == (if c.negate then "NOT " else "") + FormatClauseOp(c.op)
    ensures view.operands == DescribeOperands(c.values)
  {
    ClauseView(
      if c.contextKind.Some? && c.contextKind.value != "" then Some(c.contextKind.value + ".") else None,
      c.attribute,
      (if c.negate then "NOT " else "") + FormatClauseOp(c.op),
      DescribeOperands(c.values))
  }

  /** The clause line's text. */
  function ClauseText(view: ClauseView): (t: string)
  {
    "IF " + view.kindPrefix.GetOr("") + view.attribute + " " + view.operator + " " + OperandsText(view.operands)
  }

  // ---------------------------------------------------------------------
  // Reading a clause line back (the reference reading for `OperandsText` and `ClauseText`)
  // ---------------------------------------------------------------------

  predicate EndsWithMore(t: string) {
    |t| >= 5 && t[|t| - 5..] == " more"
  }

  /** The longest run of digits that ends `s`. */
  function TrailingDigits(s: string): (d: string)
    ensures AllDigits(d)
  {
    if s != [] && IsDigit(s[|s| - 1]) then TrailingDigits(s[..|s| - 1]) + [s[|s| - 1]] else ""
  }

  /** The number of operands a text says it leaves out: the digits before a closing ` more`, if any. */
  function MoreCount(t: string): (n: Option<nat>)
  {
    if EndsWithMore(t) then Some(ParseNat(TrailingDigits(t[..|t| - 5]))) else None
  }

  lemma {:induction false} TrailingDigitsAfter(p: string, d: string)
    requires p != [] && !IsDigit(p[|p| - 1]) && AllDigits(d)
    ensures TrailingDigits(p + d) == d
  {
    if d != [] {
      var s := p + d;
      assert s[..|s| - 1] == p + d[..|d| - 1];
      TrailingDigitsAfter(p, d[..|d| - 1]);
      assert d == d[..|d| - 1] + [d[|d| - 1]];
    } else {
      assert p + d == p;
    }
  }

  /** A count printed after `+` and followed by ` more` reads back as itself. */
  lemma MoreCountReadsBack(p: string, n: nat)
    requires p != [] && p[|p| - 1] == '+'
    ensures MoreCount(p + IntToString(n) + " more") == Some(n)
  {
    var d := IntToString(n);
    var t := p + d + " more";
    assert t[|t| - 5..] == " more";
    assert t[..|t| - 5] == p + d;
    TrailingDigitsAfter(p, d);
    ParseNatToString(n);
  }

  /** A text that does not end in `re`, so that nothing appended to the front makes it end in ` more`. */
  predicate CleanEnd(s: string) {
    |s| >= 1 && (s[|s| - 1] != 'e' || (|s| >= 2 && s[|s| - 2] != 'r'))
  }

  lemma NumberCleanEnd(n: int)
    ensures CleanEnd(IntToString(n))
  {
    var digits := NatToString(if n < 0 then -n else n);
    var s := IntToString(n);
    assert s[|s| - 1] == digits[|digits| - 1];
    assert IsDigit(digits[|digits| - 1]);
  }

  /** Compact JSON ends in a digit, `l`, `"`, `]`, `}`, or the `e` of `true` or `false`: never in `re`. */
  lemma StringifyCleanEnd(v: JsonValue)
    ensures CleanEnd(Stringify(v))
  {
    match v
    case JNumber(n) => NumberCleanEnd(n);
    case JString(x) =>
      var q := Quote(x);
      assert q[|q| - 1] == '"';
    case JArray(items) =>
      var s := Stringify(v);
      assert s[|s| - 1] == ']';
    case JObject(ms) =>
      var s := Stringify(v);
      assert s[|s| - 1] == '}';
    case _ =>
  }

  lemma NoMoreAfterSpace(p: string)
    requires p == [] || p[|p| - 1] == ' '
    ensures MoreCount(p) == None
  {
    if |p| >= 5 {
      assert p[|p| - 5..][4] == p[|p| - 1];
    }
  }

  lemma NoMoreAfterClean(p: string, last: string)
    requires CleanEnd(last)
    ensures MoreCount(p + last) == None
  {
    var t := p + last;
    assert t[|t| - 1] == last[|last| - 1];
    assert |last| >= 2 ==> t[|t| - 2] == last[|last| - 2];
    if |t| >= 5 {
      assert t[|t| - 5..][4] == t[|t| - 1];
      assert t[|t| - 5..][3] == t[|t| - 2];
    }
  }

  lemma NoMoreAfterShown(p: string, shown: seq<string>)
    requires |shown| >= 1 && CleanEnd(shown[|shown| - 1])
    ensures MoreCount(p + Join(", ", shown)) == None
  {
    var pre := JoinEndsWithLast(", ", shown);
    assert p + Join(", ", shown) == (p + pre) + shown[|shown| - 1];
    NoMoreAfterClean(p + pre, shown[|shown| - 1]);
  }

  /** Whatever precedes it after a space, an operand text whose shown operands end cleanly reads back its count. */
  lemma ViewCountReadsBack(p: string, view: OperandsView)
    requires p == [] || p[|p| - 1] == ' '
    requires forall i :: 0 <= i < |view.shown| ==> CleanEnd(view.shown[i])
    ensures MoreCount(p + OperandsText(view)) == if view.hidden > 0 then Some(view.hidden) else None
  {
    if view.hidden > 0 {
      HiddenCountReadsBack(p, view);
    } else {
      NothingHiddenNoCount(p, view);
    }
  }

  lemma HiddenCountReadsBack(p: string, view: OperandsView)
    requires view.hidden > 0
    ensures MoreCount(p + OperandsText(view)) == Some(view.hidden)
  {
    var joined := Join(", ", view.shown);
    MoreCountReadsBack(p + joined + " +", view.hidden);
    assert p + OperandsText(view) == p + joined + " +" + IntToString(view.hidden) + " more";
  }

  lemma NothingHiddenNoCount(p: string, view: OperandsView)
    requires p == [] || p[|p| - 1] == ' '
    requires view.hidden == 0
    requires view.shown != [] ==> CleanEnd(view.shown[|view.shown| - 1])
    ensures MoreCount(p + OperandsText(view)) == None
  {
    var joined := Join(", ", view.shown);
    assert p + OperandsText(view) == p + joined;
    if view.shown == [] {
      assert p + joined == p;
      NoMoreAfterSpace(p);
    } else {
      NoMoreAfterShown(p, view.shown);
    }
  }

  lemma ShownEndCleanly(values: seq<JsonValue>)
    ensures forall i :: 0 <= i < |DescribeOperands(values).shown| ==> CleanEnd(DescribeOperands(values).shown[i])
  {
    var view := DescribeOperands(values);
    forall i | 0 <= i < |view.shown|
      ensures CleanEnd(view.shown[i])
    {
      StringifyCleanEnd(values[i]);
    }
  }

  /**
   * Some operands are left out exactly when the operand text, after a space
   * or on its own, ends in ` +N more`, and then N reads back as how many:
   * no operand's JSON can be mistaken for the count.
   */
  lemma OperandsCountReadsBack(p: string, values: seq<JsonValue>)
    requires p == [] || p[|p| - 1] == ' '
    ensures MoreCount(p + OperandsText(DescribeOperands(values)))
      == if |values| > MaxShownOperands then Some(|values| - MaxShownOperands) else None
  {
    ShownEndCleanly(values);
    ViewCountReadsBack(p, DescribeOperands(values));
  }

  /** What a clause line opens with: `IF `, the context kind and a dot when it is truthy, the attribute, a space. */
  function ClauseLead(c: Clause): string {
    "IF " + (if c.contextKind.Some? && c.contextKind.value != "" then c.contextKind.value + "." else "") + c.attribute + " "
  }

  /** A clause's line: its lead, `NOT ` when negated, the operator's phrase, a space, the operand text. */
  lemma ClauseTextParts(c: Clause)
    ensures ClauseText(DescribeClause(c))
      == ClauseLead(c) + (if c.negate then "NOT " else "") + FormatClauseOp(c.op) + (" " + OperandsText(DescribeOperands(c.values)))
    ensures ClauseText(DescribeClause(c))
      == (ClauseLead(c) + (if c.negate then "NOT " else "") + FormatClauseOp(c.op) + " ") + OperandsText(DescribeOperands(c.values))
  {
  }

  /** No known operator's phrase starts with `N`, so none can be mistaken for a negation. */
  lemma PhraseNotNegation(op: string)
    requires op in OperatorPhrases
    ensures FormatClauseOp(op) != [] && FormatClauseOp(op)[0] != 'N'
  {
    OperatorPhraseNamesOperator(op);
  }

  lemma NegationThenPhrase(lead: string, negate: bool, phrase: string, tail: string)
    ensures var t := lead + (if negate then "NOT " else "") + phrase + tail; var rest := t[|lead|..];
      lead <= t &&
      (negate ==> "NOT " <= rest) &&
      (phrase != [] && phrase[0] != 'N' ==> ("NOT " <= rest <==> negate)) &&
      (if negate then rest[4..] else rest)[..|phrase|] == phrase
  {
    var neg := if negate then "NOT " else "";
    var t := lead + neg + phrase + tail;
    var rest := neg + phrase + tail;
    assert t == lead + rest;
    assert t[|lead|..] == rest;
    assert t[..|lead|] == lead;
    if negate {
      assert rest[4..] == phrase + tail;
    } else if phrase != [] && phrase[0] != 'N' {
      assert rest[0] == phrase[0];
    }
  }

  /**
   * A clause's line opens with its lead; `NOT ` follows it exactly when the
   * clause is negated (for a known operator: an unknown code is shown as it
   * is and may itself start with `NOT `); the operator's phrase follows that.
   */
  lemma ClauseTextReadsBack(c: Clause)
    ensures ClauseLead(c) <= ClauseText(DescribeClause(c))
    ensures var t := ClauseText(DescribeClause(c)); var rest := t[|ClauseLead(c)|..];
      (c.negate ==> "NOT " <= rest) &&
      (c.op in OperatorPhrases ==> ("NOT " <= rest <==> c.negate)) &&
      (if c.negate then rest[4..] else rest)[..|FormatClauseOp(c.op)|] == FormatClauseOp(c.op)
  {
    if c.op in OperatorPhrases {
      PhraseNotNegation(c.op);
    }
    ClauseTextParts(c);
    NegationThenPhrase(ClauseLead(c), c.negate, FormatClauseOp(c.op), " " + OperandsText(DescribeOperands(c.values)));
  }

  /** A clause's line ends in ` +N more` exactly when more than three operands are left out, N reading back as how many. */
  lemma ClauseTextCountReadsBack(c: Clause)
    ensures MoreCount(ClauseText(DescribeClause(c)))
      == if |c.values| > MaxShownOperands then Some(|c.values| - MaxShownOperands) else None
  {
    ClauseTextParts(c);
    OperandsCountReadsBack(ClauseLead(c) + (if c.negate then "NOT " else "") + FormatClauseOp(c.op) + " ", c.values);
  }

  // ---------------------------------------------------------------------
  // Rollout percentages: `(weight / 1000).toFixed(1)`
  // ---------------------------------------------------------------------

  /** Weights are modelled up to this magnitude, where a double still holds `weight / 1000` closer than 0.001 to its true value. */
  const WeightLimit := 1_000_000_000_000_000

  function Abs(x: int): nat {
    if x < 0 then -x else x
  }

  /**
   * The weights whose `toFixed(1)` the model determines: any weight whose
   * percentage does not end in exactly 5 hundredths (where the rounding
   * follows the binary double) within `WeightLimit`.
   */
  predicate ExactWeight(w: int) {
    -WeightLimit < w < WeightLimit && Abs(w) % 100 != 50
  }

  predicate ExactRollout(r: Rollout) {
    forall k :: 0 <= k < |r.variations| ==> ExactWeight(r.variations[k].weight)
  }

  /** `n` tenths of a percent is the nearest tenth to `m` thousandths of a percent. */
  function NearestTenth(m: nat): (n: nat)
    requires m % 100 != 50
    ensures -50 < n * 100 - m < 50
  {
    (m + 50) / 100
  }

  /**
   * `(w / 1000).toFixed(1)`: a minus sign for a negative weight, the whole
   * percent, a point, and the tenths digit of the nearest tenth.
   */
  function PercentText(w: int): (t: string)
    requires ExactWeight(w)
  {
    var n := NearestTenth(Abs(w));
    (if w < 0 then "-" else "") + NatToString(n / 10) + "." + [DigitChar(n % 10)]
  }

  /** Reads a one-decimal percentage back as signed tenths (the reference reading for `PercentText`). */
  function ReadTenths(t: string): (tenths: Option<int>)
  {
    if |t| > 0 && t[0] == '-' then
      match ReadUnsignedTenths(t[1..])
      case None => None
      case Some(m) => Some(-(m as int))
    else
      match ReadUnsignedTenths(t)
      case None => None
      case Some(m) => Some(m as int)
  }

  /** Digits, a point and one more digit, read as a number of tenths. */
  function ReadUnsignedTenths(u: string): (tenths: Option<nat>)
  {
    if |u| >= 3 && u[|u| - 2] == '.' && AllDigits(u[..|u| - 2]) && IsDigit(u[|u| - 1]) then
      Some(10 * ParseNat(u[..|u| - 2]) + DigitValue(u[|u| - 1]))
    else None
  }

  /**
   * The percentage text reads back as a number of tenths within half a tenth
   * of `w / 1000` (the rounding `toFixed(1)` promises), and exactly as
   * `w / 100` tenths when `w` is a multiple of 100.
   */
  lemma {:induction false} PercentTextRoundTrip(w: int)
    requires ExactWeight(w)
    ensures ReadTenths(PercentText(w)).Some?
    ensures -50 < ReadTenths(PercentText(w)).value * 100 - w < 50
    ensures w % 100 == 0 ==> ReadTenths(PercentText(w)).value == w / 100
  {
    var n := NearestTenth(Abs(w));
    var u := NatToString(n / 10) + "." + [DigitChar(n % 10)];
    if w < 0 {
      assert PercentText(w) == "-" + u;
      NegativeTenthsRead(n);
      assert ReadTenths(PercentText(w)).value * 100 - w == -(n * 100 - Abs(w));
    } else {
      assert PercentText(w) == u;
      TenthsRead(n);
    }
  }

  /** Tenths written as whole part, point and tenths digit read back as themselves. */
  lemma TenthsRead(n: nat)
    ensures ReadUnsignedTenths(NatToString(n / 10) + "." + [DigitChar(n % 10)]) == Some(n)
    ensures ReadTenths(NatToString(n / 10) + "." + [DigitChar(n % 10)]) == Some(n as int)
  {
    var whole := NatToString(n / 10);
    var u := whole + "." + [DigitChar(n % 10)];
    assert u[..|u| - 2] == whole && u[|u| - 2] == '.' && u[|u| - 1] == DigitChar(n % 10);
    assert u[0] == whole[0] && IsDigit(u[0]);
    ParseNatToString(n / 10);
  }

  /** With a minus sign in front they read back negated. */
  lemma NegativeTenthsRead(n: nat)
    ensures ReadTenths("-" + NatToString(n / 10) + "." + [DigitChar(n % 10)]) == Some(-(n as int))
  {
    var u := NatToString(n / 10) + "." + [DigitChar(n % 10)];
    var t := "-" + NatToString(n / 10) + "." + [DigitChar(n % 10)];
    assert t == "-" + u && t[0] == '-' && t[1..] == u;
    TenthsRead(n);
  }

  /** One share of a rollout: the variation's value (or `var N`) and ` (P%)`. */
  datatype RolloutEntry = RolloutEntry(variation: string, share: string)

  /** `RolloutDisplay`: every weighted variation, in stored order. */
  function RolloutEntries(r: Rollout, variations: seq<Variation>): (entries: seq<RolloutEntry>)
    requires ExactRollout(r)
    ensures |entries| == |r.variations|
    ensures forall k :: 0 <= k < |entries| ==>
      entries[k].variation == DescribeVariation(variations, r.variations[k].variation, "var ")
      && entries[k].share == " (" + PercentText(r.variations[k].weight) + "%)"
  {
    seq(|r.variations|, k requires 0 <= k < |r.variations| =>
      RolloutEntry(
        DescribeVariation(variations, r.variations[k].variation, "var "),
        " (" + PercentText(r.variations[k].weight) + "%)"))
  }

  // ---------------------------------------------------------------------
  // What a rule (or the fallthrough) serves
  // ---------------------------------------------------------------------

  datatype ServeView =
    | ServeValue(text: string)
    | ServeRollout(entries: seq<RolloutEntry>)
    | ServeNothing(text: string)

  /** The outcome's rollout, when it is the one displayed, has modelled weights. */
  predicate ExactOutcome(variation: Option<int>, rollout: Option<Rollout>) {
    variation.Some? || rollout.None? || ExactRollout(rollout.value)
  }

  /**
   * A present variation index (0 included) serves that variation's value or
   * `Variation N` and any rollout is ignored; otherwise a rollout is listed
   * share by share; otherwise `none` is shown.
   */
  function ExplainOutcome(variation: Option<int>, rollout: Option<Rollout>, variations: seq<Variation>, none: string): (view: ServeView)
    requires ExactOutcome(variation, rollout)
    ensures variation.Some? ==> view == ServeValue(DescribeVariation(variations, variation.value, "Variation "))
    ensures variation.None? && rollout.Some? ==> view == ServeRollout(RolloutEntries(rollout.value, variations))
    ensures variation.None? && rollout.None? ==> view == ServeNothing(none)
  {
    match OutcomeOf(variation, rollout)
    case Fixed(i) => ServeValue(DescribeVariation(variations, i, "Variation "))
    case Weighted(r) => ServeRollout(RolloutEntries(r, variations))
    case Unspecified => ServeNothing(none)
  }

  // ---------------------------------------------------------------------
  // The section
  // ---------------------------------------------------------------------

  datatype RuleView = RuleView(badge: string, description: Option<string>, clauses: seq<ClauseView>, serve: ServeView)

  datatype RulesBody = NoRules(message: string) | RuleList(rules: seq<RuleView>)

  datatype RulesSectionView = RulesSectionView(heading: string, body: RulesBody)

  predicate ExactRule(rule: TargetingRule) {
    ExactOutcome(rule.variation, rule.rollout)
  }

  /** The rule at 0-based position `idx`: badge `Rule idx+1`, its description when non-empty, its clauses in order, what it serves. */
  function DescribeRule(rule: TargetingRule, idx: nat, variations: seq<Variation>): (view: RuleView)
    requires ExactRule(rule)
    ensures view.badge == "Rule " + IntToString(idx + 1)
    ensures view.description.Some? <==> rule.description.Some? && rule.description.value != ""
    ensures view.description.Some? ==> view.description == rule.description
    ensures |view.clauses| == |rule.clauses|
    ensures forall k :: 0 <= k < |view.clauses| ==> view.clauses[k] == DescribeClause(rule.clauses[k])
    ensures view.serve == ExplainOutcome(rule.variation, rule.rollout, variations, "Unknown")
  {
    RuleView(
      "Rule " + IntToString(idx + 1),
      if rule.description.Some? && rule.description.value != "" then rule.description else None,
      seq(|rule.clauses|, k requires 0 <= k < |rule.clauses| => DescribeClause(rule.clauses[k])),
      ExplainOutcome(rule.variation, rule.rollout, variations, "Unknown"))
  }

  /** `TargetingRulesSection`: a message for no rules, otherwise every rule in stored order. */
  function RulesSection(rules: seq<TargetingRule>, variations: seq<Variation>, envName: string): (view: RulesSectionView)
    requires forall k :: 0 <= k < |rules| ==> ExactRule(rules[k])
    ensures view.heading == "Targeting Rules (" + envName + ")"
    ensures view.body.NoRules? <==> |rules| == 0
    ensures view.body.NoRules? ==> view.body.message == "No targeting rules configured."
    ensures view.body.RuleList? ==> |view.body.rules| == |rules|
    ensures view.body.RuleList? ==> forall k :: 0 <= k < |rules| ==> view.body.rules[k] == DescribeRule(rules[k], k, variations)
  {
    RulesSectionView(
      "Targeting Rules (" + envName + ")",
      if |rules| == 0 then NoRules("No targeting rules configured.")
      else RuleList(seq(|rules|, k requires 0 <= k < |rules| => DescribeRule(rules[k], k, variations))))
  }

  /** No two rules share a badge: the badges number the rules from 1 in stored order. */
  lemma RuleBadgesDistinct(rules: seq<TargetingRule>, variations: seq<Variation>, envName: string, i: nat, j: nat)
    requires forall k :: 0 <= k < |rules| ==> ExactRule(rules[k])
    requires i < |rules| && j < |rules| && i != j
    ensures RulesSection(rules, variations, envName).body.rules[i].badge != RulesSection(rules, variations, envName).body.rules[j].badge
  {
    var bi, bj := "Rule " + IntToString(i + 1), "Rule " + IntToString(j + 1);
    IntToStringInjective(i + 1, j + 1);
    assert bi[5..] == IntToString(i + 1) && bj[5..] == IntToString(j + 1);
  }

  // ---------------------------------------------------------------------
  // Worked examples
  // ---------------------------------------------------------------------

  /** Weights 75000 and 25000 read as `75.0` and `25.0` percent. */
  lemma QuarterPercents()
    ensures PercentText(75000) == "75.0" && PercentText(25000) == "25.0"
  {
    assert NatToString(7) == "7" && NatToString(2) == "2";
    assert NatToString(75) == "75" && NatToString(25) == "25";
  }

  /** A 75/25 rollout over `[false, true]` shows `False (75.0%)` and `True (25.0%)`. */
  lemma QuarterRolloutExample()
    ensures RolloutEntries(Rollout([WeightedVariation(0, 75000), WeightedVariation(1, 25000)], None, None),
        [Variation("a", JBool(false), None, None), Variation("b", JBool(true), None, None)])
      == [RolloutEntry("False", " (75.0%)"), RolloutEntry("True", " (25.0%)")]
  {
    QuarterPercents();
    var vs := [Variation("a", JBool(false), None, None), Variation("b", JBool(true), None, None)];
    var entries := RolloutEntries(Rollout([WeightedVariation(0, 75000), WeightedVariation(1, 25000)], None, None), vs);
    assert entries[0] == RolloutEntry("False", " (75.0%)");
    assert entries[1] == RolloutEntry("True", " (25.0%)");
  }

  /** Four operands show the first three and ` +1 more`. */
  lemma TruncatedOperandsExample()
    ensures OperandsText(DescribeOperands([JNumber(1), JNumber(2), JNumber(3), JNumber(4)])) == "1, 2, 3 +1 more"
  {
    var view := DescribeOperands([JNumber(1), JNumber(2), JNumber(3), JNumber(4)]);
    assert IntToString(1) == "1" && IntToString(2) == "2" && IntToString(3) == "3";
    assert view.shown == ["1", "2", "3"];
    assert ["1", "2", "3"][1..] == ["2", "3"] && ["2", "3"][1..] == ["3"];
    assert Join(", ", view.shown) == "1, 2, 3";
  }

  /** A rule serving index 99 of a two-variation flag shows `Variation 99`. */
  lemma OutOfRangeRuleExample()
    ensures ExplainOutcome(Some(99), None, [Variation("a", JBool(false), None, None), Variation("b", JBool(true), None, None)], "Unknown")
      == ServeValue("Variation 99")
  {
    assert NatToString(99) == "99";
  }
}
