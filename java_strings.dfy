/**
 * The handful of java.lang.String and JavaScript string operations the
 * backend and the frontend rely on, with their exact semantics.
 */
module JavaStrings {
  import opened Wrappers

  /** `s.startsWith(p)` */
  predicate StartsWith(s: string, p: string) {
    |p| <= |s| && s[..|p|] == p
  }

  /** `s.contains(t)` / `s.includes(t)`: t occurs somewhere in s. */
  predicate Contains(s: string, t: string)
    decreases |s|
  {
    StartsWith(s, t) || (|s| > 0 && Contains(s[1..], t))
  }

  lemma {:induction false} EmptyIsContained(s: string)
    ensures Contains(s, "")
  {
    assert StartsWith(s, "");
  }

  lemma {:induction false} ContainsItself(s: string)
    ensures Contains(s, s)
  {
    assert s[..|s|] == s;
  }

  /** A longer occurrence contains every part of it. */
  lemma {:induction false} ContainsInfix(s: string, a: string, t: string, b: string)
    requires s == a + t + b
    ensures Contains(s, t)
    decreases |a|
  {
    if |a| == 0 {
      assert s[..|t|] == t;
    } else {
      assert s[1..] == a[1..] + t + b;
      ContainsInfix(s[1..], a[1..], t, b);
    }
  }

  /** A string contains its own suffix. */
  lemma ContainsSuffix(a: string, t: string)
    ensures Contains(a + t, t)
  {
    assert a + t == a + t + "";
    ContainsInfix(a + t, a, t, "");
  }

  /** Java's string concatenation of a reference that may be null. */
  function Text(s: Option<string>): string {
    if s.Some? then s.value else "null"
  }

  /** `s.substring(k)` for a valid k */
  function Substring(s: string, k: nat): (r: string)
    requires k <= |s|
    ensures |r| == |s| - k
    ensures s == s[..k] + r
  {
    s[k..]
  }

  /**
   * The segments of s between occurrences of separator c, including empty
   * ones; there is always one more segment than separators.
   */
  function Segments(s: string, c: char): (r: seq<string>)
    ensures |r| >= 1
    ensures forall i :: 0 <= i < |r| ==> c !in r[i]
    decreases |s|
  {
    if |s| == 0 then [""]
    else if s[0] == c then [""] + Segments(s[1..], c)
    else
      var rest := Segments(s[1..], c);
      [[s[0]] + rest[0]] + rest[1..]
  }

  /** Drops the empty strings at the end of a list of segments. */
  function StripTrailingEmpty(r: seq<string>): (t: seq<string>)
    ensures |t| <= |r| && t == r[..|t|]
    ensures |t| > 0 ==> t[|t| - 1] != ""
    ensures forall i :: |t| <= i < |r| ==> r[i] == ""
  {
    if |r| == 0 then []
    else if r[|r| - 1] == "" then StripTrailingEmpty(r[..|r| - 1])
    else r
  }

  /**
   * Java's `s.split(regex)` for a regex that matches one literal character c
   * (as in `split("\\.")`): when c does not occur the result is `[s]`;
   * otherwise it is the list of segments with trailing empty ones removed,
   * while leading and inner empty segments are kept.
   */
  function Split(s: string, c: char): seq<string>
  {
    if c !in s then [s] else StripTrailingEmpty(Segments(s, c))
  }

  lemma {:induction false} SegmentsOfFree(s: string, c: char)
    requires c !in s
    ensures Segments(s, c) == [s]
    decreases |s|
  {
    if |s| > 0 {
      SegmentsOfFree(s[1..], c);
      assert [s[0]] + s[1..] == s;
    }
  }

  /** Segments splits at the first separator and continues after it. */
  lemma {:induction false} SegmentsAppend(a: string, c: char, b: string)
    requires c !in a
    ensures Segments(a + [c] + b, c) == [a] + Segments(b, c)
    decreases |a|
  {
    if |a| == 0 {
      assert a + [c] + b == [c] + b;
      assert ([c] + b)[1..] == b;
    } else {
      assert (a + [c] + b)[1..] == a[1..] + [c] + b;
      SegmentsAppend(a[1..], c, b);
      assert [a[0]] + a[1..] == a;
    }
  }

  /** A separator-free prefix, one separator and a rest split as expected. */
  lemma {:induction false} SplitThree(a: string, b: string, d: string, c: char)
    requires c !in a && c !in b && c !in d && d != ""
    ensures Split(a + [c] + b + [c] + d, c) == [a, b, d]
  {
    var s := a + [c] + b + [c] + d;
    assert s[|a|] == c;
    assert s == a + [c] + (b + [c] + d);
    SegmentsAppend(a, c, b + [c] + d);
    SegmentsAppend(b, c, d);
    SegmentsOfFree(d, c);
    assert Segments(s, c) == [a, b, d];
  }

  /** `arr.join(c)` of JavaScript for one separator character. */
  function Join(parts: seq<string>, c: char): (s: string)
    ensures |parts| == 1 ==> s == parts[0]
    decreases |parts|
  {
    if |parts| == 0 then ""
    else if |parts| == 1 then parts[0]
    else parts[0] + [c] + Join(parts[1..], c)
  }

  /** JavaScript's `s.split(c)` keeps every segment, trailing empties too. */
  function SplitAll(s: string, c: char): (r: seq<string>)
  {
    Segments(s, c)
  }

  /** `parts.join(',')` followed by `split(',')` gives the parts back. */
  lemma {:induction false} JoinThenSplitAll(parts: seq<string>, c: char)
    requires |parts| >= 1
    requires forall i :: 0 <= i < |parts| ==> c !in parts[i]
    ensures SplitAll(Join(parts, c), c) == parts
    decreases |parts|
  {
    if |parts| == 1 {
      SegmentsOfFree(parts[0], c);
    } else {
      JoinThenSplitAll(parts[1..], c);
      SegmentsAppend(parts[0], c, Join(parts[1..], c));
      assert [parts[0]] + parts[1..] == parts;
    }
  }

  /**
   * `Character.isWhitespace`: the ASCII controls tab to carriage return and
   * the four separators, and every Unicode space, line or paragraph
   * separator except the three non-breaking spaces.
   */
  predicate IsWhitespace(ch: char) {
    ch == ' ' || '\t' <= ch <= '\r' || '\U{1C}' <= ch <= '\U{1F}' ||
    ch == '\U{1680}' || '\U{2000}' <= ch <= '\U{2006}' || '\U{2008}' <= ch <= '\U{200A}' ||
    ch == '\U{2028}' || ch == '\U{2029}' || ch == '\U{205F}' || ch == '\U{3000}'
  }

  /** Spring's `StringUtils.hasText`: some character is not white space. */
  predicate HasText(s: string) {
    exists i :: 0 <= i < |s| && !IsWhitespace(s[i])
  }

  /** ASCII-only case-insensitive comparison of two characters. */
  function AsciiLower(ch: char): char {
    if 'A' <= ch <= 'Z' then (ch as int + 32) as char else ch
  }

  /** `s.equalsIgnoreCase(t)`, with ASCII case folding. */
  predicate EqualsIgnoreCase(s: string, t: string) {
    |s| == |t| && forall i :: 0 <= i < |s| ==> AsciiLower(s[i]) == AsciiLower(t[i])
  }

  function DigitChar(d: nat): char
    requires d < 10
  {
    "0123456789"[d]
  }

  function NatText(n: nat): (s: string)
    ensures |s| >= 1
    decreases n
  {
    if n < 10 then [DigitChar(n)] else NatText(n / 10) + [DigitChar(n % 10)]
  }

  /** `Long.toString(n)` / string concatenation of a number. */
  function LongText(n: int): string {
    if n < 0 then "-" + NatText(-n) else NatText(n)
  }

  predicate IsDigit(ch: char) {
    '0' <= ch <= '9'
  }

  function DigitValue(ch: char): nat
    requires IsDigit(ch)
  {
    ch as int - '0' as int
  }

  /** The value of a non-empty run of decimal digits, most significant first. */
  function DigitsValue(s: string): nat
    requires forall i :: 0 <= i < |s| ==> IsDigit(s[i])
    decreases |s|
  {
    if |s| == 0 then 0 else DigitsValue(s[..|s| - 1]) * 10 + DigitValue(s[|s| - 1])
  }

  const LongMin: int := -0x8000_0000_0000_0000
  const LongMax: int := 0x7fff_ffff_ffff_ffff

  /**
   * `Long.valueOf(s)`: an optional '-' or '+' followed by at least one
   * decimal digit, denoting a value that fits in 64 bits; anything else is
   * a NumberFormatException (None).
   */
  function ParseLong(s: string): (r: Option<int>)
    ensures r.Some? ==> LongMin <= r.value <= LongMax
    ensures r.Some? ==> |s| > 0
  {
    var signed := |s| > 0 && (s[0] == '-' || s[0] == '+');
    var digits := if signed then s[1..] else s;
    if |digits| == 0 || !(forall i :: 0 <= i < |digits| ==> IsDigit(digits[i])) then None
    else
      var v: int := if signed && s[0] == '-' then 0 - (DigitsValue(digits) as int) else DigitsValue(digits);
      if LongMin <= v <= LongMax then Some(v) else None
  }

  lemma {:induction false} NatTextDigits(n: nat)
    ensures forall i :: 0 <= i < |NatText(n)| ==> IsDigit(NatText(n)[i])
    ensures DigitsValue(NatText(n)) == n
    decreases n
  {
    if n >= 10 {
      NatTextDigits(n / 10);
      var s := NatText(n);
      assert s[..|s| - 1] == NatText(n / 10);
    }
  }

  /** `Long.valueOf(Long.toString(n)) == n` for every 64-bit n. */
  lemma {:induction false} ParseLongText(n: int)
    requires LongMin <= n <= LongMax
    ensures ParseLong(LongText(n)) == Some(n)
  {
    if n < 0 {
      var d := NatText(-n);
      NatTextDigits(-n);
      var s := LongText(n);
      assert s == "-" + d;
      assert s[0] == '-' && s[1..] == d;
      assert 0 - (DigitsValue(d) as int) == n;
    } else {
      var d := NatText(n);
      NatTextDigits(n);
      assert LongText(n) == d;
      assert IsDigit(d[0]);
      assert d[0] != '-' && d[0] != '+';
    }
  }
}
