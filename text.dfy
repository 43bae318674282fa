/**
 * String helpers that the JavaScript runtime provides to the source:
 * `String(n)` / template interpolation of an integer, `Array.prototype.join`
 * and `String.prototype.split` with a one-character separator.
 */
module Text {

  predicate IsDigit(c: char) {
    '0' <= c <= '9'
  }

  predicate AllDigits(s: string) {
    forall i :: 0 <= i < |s| ==> IsDigit(s[i])
  }

  function DigitValue(c: char): (d: nat)
    requires IsDigit(c)
    ensures d < 10
  {
    c as int - '0' as int
  }

  function DigitChar(d: nat): (c: char)
    requires d < 10
    ensures IsDigit(c) && DigitValue(c) == d
  {
    "0123456789"[d]
  }

  /** Decimal digits of `n`, most significant first, with no leading zero. */
  function NatToString(n: nat): (s: string)
    ensures |s| >= 1 && AllDigits(s)
    ensures |s| > 1 ==> s[0] != '0'
  {
    if n < 10 then [DigitChar(n)] else NatToString(n / 10) + [DigitChar(n % 10)]
  }

  /** How JavaScript prints an integral number: an optional minus sign, then the digits. */
  function IntToString(i: int): (s: string)
    ensures |s| >= 1
    ensures s[0] == '-' <==> i < 0
  {
    if i < 0 then "-" + NatToString(-i) else NatToString(i)
  }

  /** `${n} noun${n !== 1 ? "s" : ""}`: the count and the noun, plural unless the count is exactly 1. */
  function Counted(n: int, noun: string): (t: string)
    ensures n == 1 ==> t == "1 " + noun
    ensures n != 1 ==> t == IntToString(n) + " " + noun + "s"
  {
    IntToString(n) + " " + noun + (if n != 1 then "s" else "")
  }

  /** Reads a string of decimal digits back (the reference reading for `NatToString`). */
  function ParseNat(s: string): (n: nat)
    requires AllDigits(s)
  {
    if s == [] then 0 else 10 * ParseNat(s[..|s| - 1]) + DigitValue(s[|s| - 1])
  }

  predicate IsIntLiteral(s: string) {
    if |s| > 0 && s[0] == '-' then AllDigits(s[1..]) else AllDigits(s)
  }

  function ParseInt(s: string): (i: int)
    requires IsIntLiteral(s)
  {
    if |s| > 0 && s[0] == '-' then -(ParseNat(s[1..]) as int) else ParseNat(s)
  }

  lemma {:induction false} ParseNatToString(n: nat)
    ensures ParseNat(NatToString(n)) == n
  {
    if n >= 10 {
      var s := NatToString(n);
      assert s[..|s| - 1] == NatToString(n / 10);
      ParseNatToString(n / 10);
    }
  }

  /** Printing an integer loses nothing: reading the text back gives the integer. */
  lemma IntToStringRoundTrip(i: int)
    ensures IsIntLiteral(IntToString(i)) && ParseInt(IntToString(i)) == i
  {
    if i < 0 {
      NegativeRoundTrip(-i);
    } else {
      var s := NatToString(i);
      assert IsDigit(s[0]);
      ParseNatToString(i);
    }
  }

  lemma NegativeRoundTrip(n: nat)
    ensures IsIntLiteral("-" + NatToString(n)) && ParseInt("-" + NatToString(n)) == -(n as int)
  {
    var digits := NatToString(n);
    var s := "-" + digits;
    assert s[0] == '-' && s[1..] == digits;
    ParseNatToString(n);
  }

  lemma IntToStringInjective(i: int, j: int)
    ensures IntToString(i) == IntToString(j) <==> i == j
  {
    IntToStringRoundTrip(i);
    IntToStringRoundTrip(j);
  }

  /** `parts.join(sep)`: the parts with `sep` between neighbours; `""` for no parts. */
  function Join(sep: string, parts: seq<string>): (s: string)
  {
    if |parts| == 0 then ""
    else if |parts| == 1 then parts[0]
    else parts[0] + sep + Join(sep, parts[1..])
  }

  /** A join ends with its last part. */
  lemma {:induction false} JoinEndsWithLast(sep: string, parts: seq<string>) returns (pre: string)
    requires |parts| >= 1
    ensures Join(sep, parts) == pre + parts[|parts| - 1]
  {
    if |parts| == 1 {
      pre := "";
    } else {
      var rest := JoinEndsWithLast(sep, parts[1..]);
      pre := parts[0] + sep + rest;
    }
  }

  /** A character in neither the separator nor any part is not in the joined text. */
  lemma {:induction false} JoinAvoids(sep: string, parts: seq<string>, c: char)
    requires c !in sep
    requires forall i :: 0 <= i < |parts| ==> c !in parts[i]
    ensures c !in Join(sep, parts)
  {
    if |parts| >= 2 {
      JoinAvoids(sep, parts[1..], c);
    }
  }

  /**
   * `s.split(c)` for a one-character separator: the maximal runs of `s`
   * between occurrences of `c`, empty runs included; `""` splits to `[""]`.
   */
  function Split(s: string, c: char): (parts: seq<string>)
    ensures |parts| >= 1
    ensures |parts| == 1 <==> c !in s
    ensures forall i :: 0 <= i < |parts| ==> c !in parts[i]
  {
    if s == [] then [""]
    else
      var rest := Split(s[1..], c);
      assert c in s <==> s[0] == c || c in s[1..];
      if s[0] == c then [""] + rest
      else [[s[0]] + rest[0]] + rest[1..]
  }

  lemma JoinCons(sep: string, parts: seq<string>)
    requires |parts| >= 2
    ensures Join(sep, parts) == parts[0] + sep + Join(sep, parts[1..])
  {
  }

  /** Splitting and joining again with the same separator gives the original text back. */
  lemma {:induction false} JoinSplit(s: string, c: char)
    ensures Join([c], Split(s, c)) == s
  {
    if s != [] {
      var rest := Split(s[1..], c);
      JoinSplit(s[1..], c);
      if s[0] == c {
        JoinCons([c], [""] + rest);
        assert ([""] + rest)[1..] == rest;
      } else if |rest| == 1 {
        assert Join([c], Split(s, c)) == [s[0]] + rest[0];
      } else {
        var parts := Split(s, c);
        JoinCons([c], parts);
        JoinCons([c], rest);
        assert parts[1..] == rest[1..];
      }
    }
  }

  /** Text free of the separator is one part. */
  lemma {:induction false} SplitNoSeparator(a: string, c: char)
    requires c !in a
    ensures Split(a, c) == [a]
  {
    if a != [] {
      assert c !in a[1..];
      SplitNoSeparator(a[1..], c);
      assert [a[0]] + a[1..] == a;
    }
  }

  /** A first part free of the separator is split off exactly. */
  lemma {:induction false} SplitAfterFirst(a: string, b: string, c: char)
    requires c !in a
    ensures Split(a + [c] + b, c) == [a] + Split(b, c)
  {
    if a == [] {
      assert a + [c] + b == [c] + b;
      assert ([c] + b)[1..] == b;
    } else {
      assert (a + [c] + b)[1..] == a[1..] + [c] + b;
      SplitAfterFirst(a[1..], b, c);
      assert [a[0]] + a[1..] == a;
    }
  }

  /** Joining parts free of the separator and splitting again gives the parts back. */
  lemma {:induction false} SplitJoin(parts: seq<string>, c: char)
    requires |parts| >= 1
    requires forall i :: 0 <= i < |parts| ==> c !in parts[i]
    ensures Split(Join([c], parts), c) == parts
  {
    if |parts| == 1 {
      SplitNoSeparator(parts[0], c);
    } else {
      JoinCons([c], parts);
      SplitJoin(parts[1..], c);
      SplitAfterFirst(parts[0], Join([c], parts[1..]), c);
      assert [parts[0]] + parts[1..] == parts;
    }
  }

  /**
   * Taking the first part and re-joining the rest cuts `s` at its FIRST
   * occurrence of `c`: `a` is everything before it and `b` everything after.
   */
  lemma SplitAtFirst(s: string, c: char, a: string, b: string)
    ensures (|Split(s, c)| >= 2 && Split(s, c)[0] == a && Join([c], Split(s, c)[1..]) == b)
        <==> (c !in a && s == a + [c] + b)
  {
    var parts := Split(s, c);
    if |parts| >= 2 && parts[0] == a && Join([c], parts[1..]) == b {
      JoinSplit(s, c);
      JoinCons([c], parts);
    }
    if c !in a && s == a + [c] + b {
      SplitAfterFirst(a, b, c);
      JoinSplit(b, c);
      assert parts[1..] == Split(b, c);
    }
  }

  /** The first part of `b` is `a` exactly when `b` starts with `a` and continues, if at all, with `c`. */
  lemma SplitHead(b: string, c: char, a: string)
    ensures Split(b, c)[0] == a
        <==> (c !in a && |a| <= |b| && b[..|a|] == a && (|b| == |a| || b[|a|] == c))
  {
    var parts := Split(b, c);
    if c in b {
      SplitAtFirst(b, c, parts[0], Join([c], parts[1..]));
      var p0 := parts[0];
      assert b[..|p0|] == p0 && b[|p0|] == c;
      if c !in a && |a| <= |b| && b[..|a|] == a && (|b| == |a| || b[|a|] == c) {
        // `a` and `p0` are both separator-free prefixes of `b` followed by a separator
        assert forall k :: 0 <= k < |p0| ==> b[k] == p0[k] && b[k] != c;
        assert forall k :: 0 <= k < |a| ==> b[k] == a[k] && b[k] != c;
        assert |a| == |p0|;
        assert a == b[..|a|] == p0;
      }
    } else {
      SplitNoSeparator(b, c);
      if c !in a && |a| <= |b| && b[..|a|] == a && (|b| == |a| || b[|a|] == c) {
        assert forall k :: 0 <= k < |b| ==> b[k] != c;
        assert |a| == |b|;
        assert b == b[..|a|];
      }
    }
  }
}
