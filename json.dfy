/**
 * Variation values and clause operands are arbitrary JSON. This module closes
 * them into one datatype and gives the three ways the viewer turns them into
 * text: `JSON.stringify(v)`, `JSON.stringify(v, null, 2)` and `String(v)`.
 * Numbers are integers here (see README, "Left out").
 */
module Json {
  import opened Wrappers
  import opened Text

  /** The largest integer a double holds exactly, with every smaller one (`Number.MAX_SAFE_INTEGER`). */
  const MaxSafeInteger := 0x1F_FFFF_FFFF_FFFF

  /**
   * The integers a JSON number can carry here: those a double holds exactly.
   * All of them lie below 10^21, so JavaScript prints them as plain digits.
   */
  type SafeInteger = n: int | -MaxSafeInteger <= n <= MaxSafeInteger

  datatype JsonValue =
    | JNull
    | JBool(b: bool)
    | JNumber(n: SafeInteger)
    | JString(s: string)
    | JArray(items: seq<JsonValue>)
    | JObject(members: seq<Member>)

  /** One property of an object, in the object's own property order. */
  datatype Member = Member(key: string, value: JsonValue)

  predicate IsNonEmptyContainer(v: JsonValue) {
    (v.JArray? && |v.items| > 0) || (v.JObject? && |v.members| > 0)
  }

  // ---------------------------------------------------------------------
  // String literals (section 7 of RFC 8259, as JSON.stringify writes them)
  // ---------------------------------------------------------------------

  function HexDigit(d: nat): (c: char)
    requires d < 16
  {
    "0123456789abcdef"[d]
  }

  function HexValue(c: char): (d: Option<nat>)
    ensures d.Some? ==> d.value < 16
  {
    if '0' <= c <= '9' then Some(c as int - '0' as int)
    else if 'a' <= c <= 'f' then Some(c as int - 'a' as int + 10)
    else if 'A' <= c <= 'F' then Some(c as int - 'A' as int + 10)
    else None
  }

  /** A character that JSON.stringify writes as itself inside a string literal. */
  predicate IsPlain(c: char) {
    c != '"' && c != '\\' && c as int >= 0x20
  }

  /** How JSON.stringify writes one character inside a string literal. */
  function EscapeChar(c: char): (e: string)
    ensures IsPlain(c) <==> e == [c]
    ensures !IsPlain(c) ==> |e| >= 2 && e[0] == '\\'
  {
    if c == '"' then "\\\""
    else if c == '\\' then "\\\\"
    else if c as int == 0x08 then "\\b"
    else if c as int == 0x09 then "\\t"
    else if c as int == 0x0A then "\\n"
    else if c as int == 0x0C then "\\f"
    else if c as int == 0x0D then "\\r"
    else if c as int < 0x20 then "\\u00" + [HexDigit(c as int / 16), HexDigit(c as int % 16)]
    else [c]
  }

  function EscapeString(s: string): (e: string)
  {
    if s == [] then "" else EscapeChar(s[0]) + EscapeString(s[1..])
  }

  /** `JSON.stringify` of a string: the escaped text between double quotes. */
  function Quote(s: string): (q: string)
  {
    "\"" + EscapeString(s) + "\""
  }

  function Prepend(c: char, rest: Option<string>): Option<string> {
    if rest.Some? then Some([c] + rest.value) else None
  }

  /**
   * Reads the body of a JSON string literal back into its characters: the
   * reference reading for `EscapeString`. `None` for text that is not a
   * well-formed literal body (a bare quote or control character, a dangling
   * or unknown escape) and for `\u` escapes of UTF-16 surrogates, which have
   * no character of their own.
   */
  function Unescape(t: string): (r: Option<string>)
    decreases |t|
  {
    if t == [] then Some("")
    else if t[0] == '"' || t[0] as int < 0x20 then None
    else if t[0] != '\\' then Prepend(t[0], Unescape(t[1..]))
    else if |t| < 2 then None
    else if t[1] == '"' then Prepend('"', Unescape(t[2..]))
    else if t[1] == '\\' then Prepend('\\', Unescape(t[2..]))
    else if t[1] == '/' then Prepend('/', Unescape(t[2..]))
    else if t[1] == 'b' then Prepend(0x08 as char, Unescape(t[2..]))
    else if t[1] == 't' then Prepend(0x09 as char, Unescape(t[2..]))
    else if t[1] == 'n' then Prepend(0x0A as char, Unescape(t[2..]))
    else if t[1] == 'f' then Prepend(0x0C as char, Unescape(t[2..]))
    else if t[1] == 'r' then Prepend(0x0D as char, Unescape(t[2..]))
    else if t[1] == 'u' && |t| >= 6 then
      var h0, h1, h2, h3 := HexValue(t[2]), HexValue(t[3]), HexValue(t[4]), HexValue(t[5]);
      if h0.None? || h1.None? || h2.None? || h3.None? then None
      else
        var code := 4096 * h0.value + 256 * h1.value + 16 * h2.value + h3.value;
        if 0xD800 <= code < 0xE000 then None
        else Prepend(code as char, Unescape(t[6..]))
    else None
  }

  lemma UnescapeEscapeChar(c: char, t: string)
    ensures Unescape(EscapeChar(c) + t) == Prepend(c, Unescape(t))
  {
    var e := EscapeChar(c);
    if IsPlain(c) {
      assert (e + t)[1..] == t;
    } else if c as int < 0x20 && c as int !in {0x08, 0x09, 0x0A, 0x0C, 0x0D} {
      UnescapeUnicodeEscape(c, t);
    } else {
      assert (e + t)[2..] == t;
    }
  }

  /** A control character without a short escape is written `\u00XY` and read back from it. */
  lemma UnescapeUnicodeEscape(c: char, t: string)
    requires c as int < 0x20 && c as int !in {0x08, 0x09, 0x0A, 0x0C, 0x0D}
    ensures Unescape(EscapeChar(c) + t) == Prepend(c, Unescape(t))
  {
    var e := EscapeChar(c);
    var hi, lo := c as int / 16, c as int % 16;
    assert e + t == ['\\', 'u', '0', '0', HexDigit(hi), HexDigit(lo)] + t;
    assert (e + t)[6..] == t;
    assert HexValue(HexDigit(hi)) == Some(hi);
    assert HexValue(HexDigit(lo)) == Some(lo);
    assert (16 * hi + lo) as char == c;
  }

  /** Escaping loses nothing: reading the literal body back gives the original string. */
  lemma {:induction false} UnescapeEscape(s: string)
    ensures Unescape(EscapeString(s)) == Some(s)
  {
    if s != [] {
      UnescapeEscapeChar(s[0], EscapeString(s[1..]));
      UnescapeEscape(s[1..]);
      assert [s[0]] + s[1..] == s;
    }
  }

  /** Escaping changes a string exactly when it holds a quote, a backslash or a control character. */
  lemma {:induction false} EscapeStringIdentity(s: string)
    ensures |EscapeString(s)| >= |s|
    ensures EscapeString(s) == s <==> forall i :: 0 <= i < |s| ==> IsPlain(s[i])
  {
    if s != [] {
      EscapeStringIdentity(s[1..]);
      if forall i :: 0 <= i < |s| ==> IsPlain(s[i]) {
        assert IsPlain(s[0]);
        assert forall i :: 0 <= i < |s[1..]| ==> IsPlain(s[1..][i]);
        assert [s[0]] + s[1..] == s;
      }
      if EscapeString(s) == s {
        assert |EscapeChar(s[0])| == 1;
        assert EscapeChar(s[0]) == [s[0]];
        assert EscapeString(s[1..]) == s[1..];
      }
    }
  }

  // ---------------------------------------------------------------------
  // JSON.stringify(v) and JSON.stringify(v, null, 2)
  // ---------------------------------------------------------------------

  /** `JSON.stringify(v)`: compact text, members in the object's property order. */
  function Stringify(v: JsonValue): (t: string)
  {
    match v
    case JNull => "null"
    case JBool(b) => if b then "true" else "false"
    case JNumber(n) => IntToString(n)
    case JString(s) => Quote(s)
    case JArray(items) =>
      "[" + Join(",", seq(|items|, i requires 0 <= i < |items| => Stringify(items[i]))) + "]"
    case JObject(ms) =>
      "{" + Join(",", seq(|ms|, i requires 0 <= i < |ms| => CompactMember(ms[i]))) + "}"
  }

  function CompactMember(m: Member): (t: string)
  {
    Quote(m.key) + ":" + Stringify(m.value)
  }

  /**
   * `JSON.stringify(v, null, 2)` for a value nested at `indent`: a non-empty
   * array or object puts each element on its own line, two spaces deeper,
   * and a member's colon is followed by one space.
   */
  function PrettyAt(v: JsonValue, indent: string): (t: string)
  {
    match v
    case JArray(items) =>
      if items == [] then "[]"
      else
        var inner := indent + "  ";
        "[" + "\n" + Join(",\n", seq(|items|, i requires 0 <= i < |items| => inner + PrettyAt(items[i], inner)))
        + "\n" + indent + "]"
    case JObject(ms) =>
      if ms == [] then "{}"
      else
        var inner := indent + "  ";
        "{" + "\n" + Join(",\n", seq(|ms|, i requires 0 <= i < |ms| => PrettyMember(ms[i], inner)))
        + "\n" + indent + "}"
    case _ => Stringify(v)
  }

  function PrettyMember(m: Member, indent: string): (t: string)
  {
    indent + Quote(m.key) + ": " + PrettyAt(m.value, indent)
  }

  function Pretty(v: JsonValue): (t: string)
  {
    PrettyAt(v, "")
  }

  /** Pretty printing breaks lines exactly for non-empty arrays and objects; otherwise it is the compact text. */
  lemma PrettyBreaksOnlyContainers(v: JsonValue)
    ensures !IsNonEmptyContainer(v) ==> Pretty(v) == Stringify(v)
    ensures '\n' in Pretty(v) <==> IsNonEmptyContainer(v)
  {
    if IsNonEmptyContainer(v) {
      assert Pretty(v)[1] == '\n';
    } else {
      StringifyOneLine(v);
    }
  }

  lemma {:induction false} NoNewlineInEscape(s: string)
    ensures '\n' !in EscapeString(s)
  {
    if s != [] {
      NoNewlineInEscape(s[1..]);
    }
  }

  /** Compact JSON text is a single line: string contents have their line breaks escaped. */
  lemma {:induction false} StringifyOneLine(v: JsonValue)
    ensures '\n' !in Stringify(v)
    decreases v, 1
  {
    match v
    case JNull =>
    case JBool(b) =>
    case JNumber(n) => NumberOneLine(n);
    case JString(s) => QuoteOneLine(s);
    case JArray(items) => ArrayOneLine(v);
    case JObject(ms) => ObjectOneLine(v);
  }

  lemma NumberOneLine(n: int)
    ensures '\n' !in IntToString(n)
  {
    var digits := NatToString(if n < 0 then -n else n);
    assert '\n' !in digits by {
      forall k | 0 <= k < |digits| ensures digits[k] != '\n' {
        assert IsDigit(digits[k]);
      }
    }
    if n < 0 {
      assert IntToString(n) == "-" + digits;
    }
  }

  lemma QuoteOneLine(s: string)
    ensures '\n' !in Quote(s)
  {
    NoNewlineInEscape(s);
    assert Quote(s) == "\"" + EscapeString(s) + "\"";
  }

  lemma {:induction false} ArrayOneLine(v: JsonValue)
    requires v.JArray?
    ensures '\n' !in Stringify(v)
    decreases v, 0
  {
    var items := v.items;
    var parts := seq(|items|, i requires 0 <= i < |items| => Stringify(items[i]));
    forall i | 0 <= i < |items| ensures '\n' !in parts[i] {
      StringifyOneLine(items[i]);
    }
    JoinAvoids(",", parts, '\n');
  }

  lemma {:induction false} ObjectOneLine(v: JsonValue)
    requires v.JObject?
    ensures '\n' !in Stringify(v)
    decreases v, 0
  {
    var ms := v.members;
    var parts := seq(|ms|, i requires 0 <= i < |ms| => CompactMember(ms[i]));
    forall i | 0 <= i < |ms| ensures '\n' !in parts[i] {
      NoNewlineInEscape(ms[i].key);
      StringifyOneLine(ms[i].value);
      assert parts[i] == "\"" + EscapeString(ms[i].key) + "\"" + ":" + Stringify(ms[i].value);
    }
    JoinAvoids(",", parts, '\n');
  }

  // ---------------------------------------------------------------------
  // Pretty printing only adds whitespace
  // ---------------------------------------------------------------------

  /** Where a left-to-right scan of JSON text stands: between tokens, inside a string, or just after a backslash in one. */
  datatype ScanState = Between | InString | AfterBackslash

  function Step(st: ScanState, c: char): ScanState {
    match st
    case Between => if c == '"' then InString else Between
    case InString => if c == '\\' then AfterBackslash else if c == '"' then Between else InString
    case AfterBackslash => InString
  }

  function EndState(t: string, st: ScanState): ScanState
    decreases |t|
  {
    if t == [] then st else EndState(t[1..], Step(st, t[0]))
  }

  /** Drops the spaces and line breaks that lie between tokens; string contents are kept as they are. */
  function Minify(t: string, st: ScanState): (m: string)
    decreases |t|
  {
    if t == [] then ""
    else if st == Between && (t[0] == ' ' || t[0] == '\n') then Minify(t[1..], st)
    else [t[0]] + Minify(t[1..], Step(st, t[0]))
  }

  lemma {:induction false} MinifyAppend(a: string, b: string, st: ScanState)
    ensures Minify(a + b, st) == Minify(a, st) + Minify(b, EndState(a, st))
    ensures EndState(a + b, st) == EndState(b, EndState(a, st))
  {
    if a != [] {
      assert (a + b)[0] == a[0] && (a + b)[1..] == a[1..] + b;
      MinifyAppend(a[1..], b, Step(st, a[0]));
      assert EndState(a, st) == EndState(a[1..], Step(st, a[0]));
      if st == Between && (a[0] == ' ' || a[0] == '\n') {
        assert Step(st, a[0]) == st;
        assert Minify(a + b, st) == Minify(a[1..] + b, st);
        assert Minify(a, st) == Minify(a[1..], st);
      } else {
        assert Minify(a + b, st) == [a[0]] + Minify(a[1..] + b, Step(st, a[0]));
        assert Minify(a, st) == [a[0]] + Minify(a[1..], Step(st, a[0]));
      }
    } else {
      assert a + b == b;
    }
  }

  /** Text made only of spaces. */
  predicate Blank(s: string) {
    forall i :: 0 <= i < |s| ==> s[i] == ' '
  }

  lemma {:induction false} MinifyBlank(s: string)
    requires Blank(s)
    ensures Minify(s, Between) == "" && EndState(s, Between) == Between
  {
    if s != [] {
      assert Blank(s[1..]);
      MinifyBlank(s[1..]);
    }
  }

  /** Text a scan between tokens keeps whole and leaves between tokens. */
  predicate Tight(t: string) {
    Minify(t, Between) == t && EndState(t, Between) == Between
  }

  lemma {:induction false} TightAppend(a: string, b: string)
    requires Tight(a) && Tight(b)
    ensures Tight(a + b)
  {
    MinifyAppend(a, b, Between);
  }

  /** Text with no quote or backslash: a scan inside a string keeps it and stays inside. */
  lemma {:induction false} KeptPlain(s: string)
    requires forall k :: 0 <= k < |s| ==> s[k] != '\\' && s[k] != '"'
    ensures Minify(s, InString) == s && EndState(s, InString) == InString
  {
    if s != [] {
      KeptPlain(s[1..]);
    }
  }

  lemma EscapeCharKept(c: char)
    ensures Minify(EscapeChar(c), InString) == EscapeChar(c)
    ensures EndState(EscapeChar(c), InString) == InString
  {
    var e := EscapeChar(c);
    if IsPlain(c) {
      KeptPlain(e);
    } else {
      // a backslash, one escaped character, then (for \u00XX) four plain characters
      assert e == e[..2] + e[2..];
      BackslashPairKept(e[..2]);
      EscapeTailPlain(c);
      KeptPlain(e[2..]);
      MinifyAppend(e[..2], e[2..], InString);
    }
  }

  /** A backslash and the character it escapes: a scan inside a string keeps both and stays inside. */
  lemma BackslashPairKept(p: string)
    requires |p| == 2 && p[0] == '\\'
    ensures Minify(p, InString) == p && EndState(p, InString) == InString
  {
    var q := p[1..];
    assert q[1..] == [];
    assert Minify(q, AfterBackslash) == [q[0]] + Minify(q[1..], InString) == q;
    assert EndState(q, AfterBackslash) == EndState(q[1..], InString) == InString;
    assert Step(InString, p[0]) == AfterBackslash;
    assert p == [p[0]] + q;
  }

  /** After its first two characters an escape holds neither a quote nor a backslash. */
  lemma EscapeTailPlain(c: char)
    requires !IsPlain(c)
    ensures forall k :: 2 <= k < |EscapeChar(c)| ==> EscapeChar(c)[k] != '\\' && EscapeChar(c)[k] != '"'
  {
    if c != '"' && c != '\\' && c as int !in {0x08, 0x09, 0x0A, 0x0C, 0x0D} {
      var hi, lo := HexDigit(c as int / 16), HexDigit(c as int % 16);
      assert "0123456789abcdef"[c as int / 16] == hi && "0123456789abcdef"[c as int % 16] == lo;
      assert EscapeChar(c) == ['\\', 'u', '0', '0', hi, lo];
    }
  }

  lemma {:induction false} EscapeKeptInString(s: string)
    ensures Minify(EscapeString(s), InString) == EscapeString(s)
    ensures EndState(EscapeString(s), InString) == InString
  {
    if s != [] {
      EscapeCharKept(s[0]);
      EscapeKeptInString(s[1..]);
      MinifyAppend(EscapeChar(s[0]), EscapeString(s[1..]), InString);
    }
  }

  lemma QuoteTight(s: string)
    ensures Tight(Quote(s))
  {
    EscapeKeptInString(s);
    MinifyAppend("\"", EscapeString(s) + "\"", Between);
    MinifyAppend(EscapeString(s), "\"", InString);
    assert Quote(s) == "\"" + (EscapeString(s) + "\"");
  }

  /** Text with no space, line break or quote: a scan between tokens keeps it all. */
  lemma {:induction false} BareTight(s: string)
    requires forall k :: 0 <= k < |s| ==> s[k] != ' ' && s[k] != '\n' && s[k] != '"'
    ensures Tight(s)
  {
    if s != [] {
      BareTight(s[1..]);
    }
  }

  /** Joins the pretty parts to the compact parts when each pretty part minifies to its compact part. */
  lemma {:induction false} MinifyJoin(psep: string, csep: string, pretty: seq<string>, compact: seq<string>)
    requires |pretty| == |compact|
    requires Minify(psep, Between) == csep && EndState(psep, Between) == Between
    requires forall i :: 0 <= i < |pretty| ==> Minify(pretty[i], Between) == compact[i] && EndState(pretty[i], Between) == Between
    ensures Minify(Join(psep, pretty), Between) == Join(csep, compact)
    ensures EndState(Join(psep, pretty), Between) == Between
  {
    if |pretty| >= 2 {
      MinifyJoin(psep, csep, pretty[1..], compact[1..]);
      MinifyAppend(pretty[0], psep + Join(psep, pretty[1..]), Between);
      MinifyAppend(psep, Join(psep, pretty[1..]), Between);
      assert Join(psep, pretty) == pretty[0] + (psep + Join(psep, pretty[1..]));
    }
  }

  lemma {:induction false} StringifyTight(v: JsonValue)
    ensures Tight(Stringify(v))
    decreases v, 1
  {
    match v
    case JNull => BareTight("null");
    case JBool(b) => BareTight("true"); BareTight("false");
    case JNumber(n) => NumberTight(n);
    case JString(s) => QuoteTight(s);
    case JArray(items) => StringifyArrayTight(v);
    case JObject(ms) => StringifyObjectTight(v);
  }

  lemma NumberTight(n: int)
    ensures Tight(IntToString(n))
  {
    if n < 0 {
      BareTight("-" + NatToString(-n));
    } else {
      BareTight(NatToString(n));
    }
  }

  lemma {:induction false} StringifyArrayTight(v: JsonValue)
    requires v.JArray?
    ensures Tight(Stringify(v))
    decreases v, 0
  {
    var items := v.items;
    var parts := seq(|items|, i requires 0 <= i < |items| => Stringify(items[i]));
    forall i | 0 <= i < |items| ensures Tight(parts[i]) {
      StringifyTight(items[i]);
    }
    BareTight("["); BareTight("]"); BareTight(",");
    MinifyJoin(",", ",", parts, parts);
    TightAppend("[", Join(",", parts));
    TightAppend("[" + Join(",", parts), "]");
  }

  lemma {:induction false} StringifyObjectTight(v: JsonValue)
    requires v.JObject?
    ensures Tight(Stringify(v))
    decreases v, 0
  {
    var ms := v.members;
    var parts := seq(|ms|, i requires 0 <= i < |ms| => CompactMember(ms[i]));
    forall i | 0 <= i < |ms| ensures Tight(parts[i]) {
      QuoteTight(ms[i].key);
      StringifyTight(ms[i].value);
      BareTight(":");
      TightAppend(Quote(ms[i].key), ":");
      TightAppend(Quote(ms[i].key) + ":", Stringify(ms[i].value));
    }
    BareTight("{"); BareTight("}"); BareTight(",");
    MinifyJoin(",", ",", parts, parts);
    TightAppend("{", Join(",", parts));
    TightAppend("{" + Join(",", parts), "}");
  }

  /** Minify of `a + b` when `a` is blank and `b` minifies to `m` between tokens. */
  lemma MinifyAfterBlank(a: string, b: string, m: string)
    requires Blank(a) && Minify(b, Between) == m && EndState(b, Between) == Between
    ensures Minify(a + b, Between) == m && EndState(a + b, Between) == Between
  {
    MinifyBlank(a);
    MinifyAppend(a, b, Between);
  }

  /**
   * `JSON.stringify(v, null, 2)` differs from `JSON.stringify(v)` only by
   * spaces and line breaks between tokens: removing them gives the compact text.
   */
  lemma {:induction false} PrettyMinifiesToCompact(v: JsonValue, indent: string)
    requires Blank(indent)
    ensures Minify(PrettyAt(v, indent), Between) == Stringify(v)
    ensures EndState(PrettyAt(v, indent), Between) == Between
    decreases v, 1
  {
    match v
    case JArray(items) =>
      if items == [] {
        BareTight("[]");
      } else {
        PrettyArrayMinifies(v, indent);
      }
    case JObject(ms) =>
      if ms == [] {
        BareTight("{}");
      } else {
        PrettyObjectMinifies(v, indent);
      }
    case _ =>
      StringifyTight(v);
  }

  lemma {:induction false} PrettyArrayMinifies(v: JsonValue, indent: string)
    requires Blank(indent) && v.JArray? && |v.items| > 0
    ensures Minify(PrettyAt(v, indent), Between) == Stringify(v)
    ensures EndState(PrettyAt(v, indent), Between) == Between
    decreases v, 0
  {
    var items := v.items;
    var inner := indent + "  ";
    var pretty := seq(|items|, i requires 0 <= i < |items| => inner + PrettyAt(items[i], inner));
    var compact := seq(|items|, i requires 0 <= i < |items| => Stringify(items[i]));
    assert Blank(inner);
    forall i | 0 <= i < |items|
      ensures Minify(pretty[i], Between) == compact[i] && EndState(pretty[i], Between) == Between
    {
      PrettyItemMinifies(items[i], inner);
    }
    SeparatorMinifies();
    BareTight("[");
    BareTight("]");
    MinifyJoin(",\n", ",", pretty, compact);
    Close("[", Join(",\n", pretty), Join(",", compact), indent, "]");
    assert PrettyAt(v, indent) == "[" + "\n" + Join(",\n", pretty) + "\n" + indent + "]";
    assert Stringify(v) == "[" + Join(",", compact) + "]";
  }

  /** One pretty array item, indented, minifies to the item's compact text. */
  lemma {:induction false} PrettyItemMinifies(item: JsonValue, inner: string)
    requires Blank(inner)
    ensures Minify(inner + PrettyAt(item, inner), Between) == Stringify(item)
    ensures EndState(inner + PrettyAt(item, inner), Between) == Between
    decreases item, 2
  {
    PrettyMinifiesToCompact(item, inner);
    MinifyAfterBlank(inner, PrettyAt(item, inner), Stringify(item));
  }

  lemma {:induction false} PrettyObjectMinifies(v: JsonValue, indent: string)
    requires Blank(indent) && v.JObject? && |v.members| > 0
    ensures Minify(PrettyAt(v, indent), Between) == Stringify(v)
    ensures EndState(PrettyAt(v, indent), Between) == Between
    decreases v, 0
  {
    var ms := v.members;
    var inner := indent + "  ";
    var pretty := seq(|ms|, i requires 0 <= i < |ms| => PrettyMember(ms[i], inner));
    var compact := seq(|ms|, i requires 0 <= i < |ms| => CompactMember(ms[i]));
    assert Blank(inner);
    forall i | 0 <= i < |ms|
      ensures Minify(pretty[i], Between) == compact[i] && EndState(pretty[i], Between) == Between
    {
      PrettyMemberMinifies(ms[i], inner);
    }
    SeparatorMinifies();
    BareTight("{");
    BareTight("}");
    MinifyJoin(",\n", ",", pretty, compact);
    Close("{", Join(",\n", pretty), Join(",", compact), indent, "}");
    assert PrettyAt(v, indent) == "{" + "\n" + Join(",\n", pretty) + "\n" + indent + "}";
    assert Stringify(v) == "{" + Join(",", compact) + "}";
  }

  lemma {:induction false} PrettyMemberMinifies(m: Member, indent: string)
    requires Blank(indent)
    ensures Minify(PrettyMember(m, indent), Between) == CompactMember(m)
    ensures EndState(PrettyMember(m, indent), Between) == Between
    decreases m, 2
  {
    PrettyMinifiesToCompact(m.value, indent);
    QuoteTight(m.key);
    MemberMinifies(indent, Quote(m.key), PrettyAt(m.value, indent), Stringify(m.value));
  }

  lemma SeparatorMinifies()
    ensures Minify(",\n", Between) == "," && EndState(",\n", Between) == Between
  {
    assert ",\n"[1..] == "\n";
    assert "\n"[1..] == "";
  }

  /** One pretty member `indent + key + ": " + value` minifies to the compact `key + ":" + value`. */
  lemma MemberMinifies(indent: string, q: string, pv: string, cv: string)
    requires Blank(indent) && Tight(q)
    requires Minify(pv, Between) == cv && EndState(pv, Between) == Between
    ensures Minify(indent + q + ": " + pv, Between) == q + ":" + cv
    ensures EndState(indent + q + ": " + pv, Between) == Between
  {
    assert Minify(": ", Between) == ":" && EndState(": ", Between) == Between by {
      assert ": "[1..] == " ";
      assert " "[1..] == "";
    }
    MinifyBlank(indent);
    MinifyAppend(indent, q, Between);
    MinifyAppend(indent + q, ": ", Between);
    MinifyAppend(indent + q + ": ", pv, Between);
  }

  /** The brackets around a pretty body: `open + "\n" + body + "\n" + indent + close`. */
  lemma Close(open: string, body: string, cbody: string, indent: string, close: string)
    requires Tight(open) && Tight(close) && Blank(indent)
    requires Minify(body, Between) == cbody && EndState(body, Between) == Between
    ensures Minify(open + "\n" + body + "\n" + indent + close, Between) == open + cbody + close
    ensures EndState(open + "\n" + body + "\n" + indent + close, Between) == Between
  {
    LineBreakMinifies();
    CloseTail(body, cbody, indent, close);
    MinifyAppend("\n", body + ("\n" + (indent + close)), Between);
    MinifyAppend(open, "\n" + (body + ("\n" + (indent + close))), Between);
    assert open + "\n" + body + "\n" + indent + close == open + ("\n" + (body + ("\n" + (indent + close))));
  }

  lemma LineBreakMinifies()
    ensures Minify("\n", Between) == "" && EndState("\n", Between) == Between
  {
    assert "\n"[1..] == "";
  }

  /** The body, a line break, the indent and the closing bracket minify to the compact body and the bracket. */
  lemma CloseTail(body: string, cbody: string, indent: string, close: string)
    requires Tight(close) && Blank(indent)
    requires Minify(body, Between) == cbody && EndState(body, Between) == Between
    ensures Minify(body + ("\n" + (indent + close)), Between) == cbody + close
    ensures EndState(body + ("\n" + (indent + close)), Between) == Between
  {
    LineBreakMinifies();
    MinifyAfterBlank(indent, close, close);
    MinifyAppend("\n", indent + close, Between);
    MinifyAppend(body, "\n" + (indent + close), Between);
  }

  // ---------------------------------------------------------------------
  // String(v)
  // ---------------------------------------------------------------------

  /**
   * JavaScript's `String(v)`: strings as they are (no quotes), booleans in
   * lower case, arrays as their elements' `String` joined by commas with
   * `null` elements empty, and every object as `[object Object]`.
   */
  function JsString(v: JsonValue): (t: string)
  {
    match v
    case JNull => "null"
    case JBool(b) => if b then "true" else "false"
    case JNumber(n) => IntToString(n)
    case JString(s) => s
    case JArray(items) =>
      Join(",", seq(|items|, i requires 0 <= i < |items| => if items[i].JNull? then "" else JsString(items[i])))
    case JObject(_) => "[object Object]"
  }

  /** `String` and `JSON.stringify` agree on null, booleans and numbers; on a string, `JSON.stringify` adds the quoted escaping. */
  lemma JsStringVersusStringify(v: JsonValue)
    ensures (v.JNull? || v.JBool? || v.JNumber?) ==> JsString(v) == Stringify(v)
    ensures v.JString? ==> Stringify(v) == Quote(JsString(v))
    ensures v.JString? ==> JsString(v) != Stringify(v)
  {
    if v.JString? {
      EscapeStringIdentity(v.s);
      assert |Stringify(v)| == |v.s| + 2 + (|EscapeString(v.s)| - |v.s|);
    }
  }
}
