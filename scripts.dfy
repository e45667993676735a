/**
 * The JavaScript semantics the frontend relies on: truthiness of optional
 * strings and ids, `Array.prototype.filter`, case-insensitive `includes`
 * through an abstract `toLowerCase`, and `parseInt` of a decimal text.
 */
module Scripts {
  import opened Wrappers
  import opened JavaStrings

  /** A string that may be undefined or null is truthy when it is there and not "". */
  predicate Truthy(s: Option<string>) {
    s.Some? && s.value != ""
  }

  /** A number that may be undefined is truthy when it is there and not 0. */
  predicate TruthyNumber(n: Option<int>) {
    n.Some? && n.value != 0
  }

  /** `s.filter(keep)`: the elements that pass, in their original order. */
  function Filter<T>(s: seq<T>, keep: T -> bool): (r: seq<T>)
    ensures |r| <= |s|
    ensures forall i :: 0 <= i < |r| ==> r[i] in s && keep(r[i])
    ensures forall i :: 0 <= i < |s| && keep(s[i]) ==> s[i] in r
    decreases |s|
  {
    if |s| == 0 then []
    else
      var rest := Filter(s[1..], keep);
      assert forall i :: 1 <= i < |s| ==> s[i] == s[1..][i - 1];
      if keep(s[0]) then [s[0]] + rest else rest
  }

  /** Filtering a concatenation filters each part, so filtering keeps the relative order. */
  lemma {:induction false} FilterAppend<T>(a: seq<T>, b: seq<T>, keep: T -> bool)
    ensures Filter(a + b, keep) == Filter(a, keep) + Filter(b, keep)
    decreases |a|
  {
    if |a| > 0 {
      assert (a + b)[0] == a[0];
      assert (a + b)[1..] == a[1..] + b;
      FilterAppend(a[1..], b, keep);
    } else {
      assert a + b == b;
    }
  }

  /** Filtering a list with one more element at its end keeps that element iff it passes. */
  lemma FilterSnoc<T>(s: seq<T>, x: T, keep: T -> bool)
    ensures Filter(s + [x], keep) == Filter(s, keep) + (if keep(x) then [x] else [])
  {
    FilterAppend(s, [x], keep);
    assert Filter([x], keep) == (if keep(x) then [x] else []);
  }

  /** When every element passes nothing is dropped. */
  lemma {:induction false} FilterKeepsAll<T>(s: seq<T>, keep: T -> bool)
    requires forall i :: 0 <= i < |s| ==> keep(s[i])
    ensures Filter(s, keep) == s
    decreases |s|
  {
    if |s| > 0 {
      FilterKeepsAll(s[1..], keep);
      assert [s[0]] + s[1..] == s;
    }
  }

  /** When no element passes nothing is kept. */
  lemma {:induction false} FilterKeepsNone<T>(s: seq<T>, keep: T -> bool)
    requires forall i :: 0 <= i < |s| ==> !keep(s[i])
    ensures Filter(s, keep) == []
    decreases |s|
  {
    if |s| > 0 {
      FilterKeepsNone(s[1..], keep);
    }
  }

  /** Filtering with a stronger test keeps a part of what the weaker one keeps. */
  lemma {:induction false} FilterTwice<T>(s: seq<T>, first: T -> bool, second: T -> bool)
    ensures Filter(Filter(s, first), second) == Filter(s, x => first(x) && second(x))
    decreases |s|
  {
    if |s| > 0 {
      FilterTwice(s[1..], first, second);
    }
  }

  /**
   * `field.toLowerCase().includes(search.toLowerCase())`, where `lower` is
   * the browser's `toLowerCase`.
   */
  predicate IncludesIgnoringCase(lower: string -> string, field: string, search: string) {
    Contains(lower(field), lower(search))
  }

  /** The optional-field form `(f && f.toLowerCase().includes(...))`: a falsy field never matches. */
  predicate OptionalIncludes(lower: string -> string, field: Option<string>, search: string) {
    Truthy(field) && IncludesIgnoringCase(lower, field.value, search)
  }

  /** With an empty search every field matches, since `"".toLowerCase()` is "". */
  lemma EmptySearchMatches(lower: string -> string, field: string)
    requires lower("") == ""
    ensures IncludesIgnoringCase(lower, field, "")
  {
    EmptyIsContained(lower(field));
  }

  /** What a coloured tag or badge shows: its colour and its text. */
  datatype Label = Label(color: string, text: string)

  /** The longest prefix of decimal digits. */
  function LeadingDigits(s: string): (d: string)
    ensures |d| <= |s| && d == s[..|d|]
    ensures forall i :: 0 <= i < |d| ==> IsDigit(d[i])
    ensures |d| < |s| ==> !IsDigit(s[|d|])
    decreases |s|
  {
    if |s| == 0 || !IsDigit(s[0]) then ""
    else [s[0]] + LeadingDigits(s[1..])
  }

  lemma {:induction false} AllDigitsLead(s: string)
    requires forall i :: 0 <= i < |s| ==> IsDigit(s[i])
    ensures LeadingDigits(s) == s
    decreases |s|
  {
    if |s| > 0 {
      AllDigitsLead(s[1..]);
      assert [s[0]] + s[1..] == s;
    }
  }

  /**
   * `parseInt(s)` for the texts the frontend builds: an optional sign, then
   * the value of the leading digits; no digit at all is NaN (None).
   */
  function ParseInt(s: string): (r: Option<int>)
    ensures r.Some? ==> |s| > 0
    ensures r.None? <==> LeadingDigits(Unsigned(s)) == ""
    ensures r.Some? && s[0] == '-' ==> r.value == 0 - DigitsValue(LeadingDigits(Unsigned(s)))
    ensures r.Some? && s[0] != '-' ==> r.value == DigitsValue(LeadingDigits(Unsigned(s)))
  {
    var digits := LeadingDigits(Unsigned(s));
    if |digits| == 0 then None
    else if s[0] == '-' then Some(0 - DigitsValue(digits))
    else Some(DigitsValue(digits))
  }

  /** The text after an optional leading '-' or '+'. */
  function Unsigned(s: string): (u: string)
    ensures |s| > 0 && (s[0] == '-' || s[0] == '+') ==> u == s[1..]
    ensures !(|s| > 0 && (s[0] == '-' || s[0] == '+')) ==> u == s
  {
    if |s| > 0 && (s[0] == '-' || s[0] == '+') then s[1..] else s
  }

  /** `parseInt(n.toString())` is n for every non-negative whole number. */
  lemma ParseIntText(n: nat)
    ensures ParseInt(NatText(n)) == Some(n)
  {
    NatTextDigits(n);
    AllDigitsLead(NatText(n));
    assert IsDigit(NatText(n)[0]);
  }
}
