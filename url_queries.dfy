/**
 * `URLSearchParams` as the frontend uses it: reading a parameter of a
 * query made of '&'-separated `name=value` pairs, and the query text a list
 * of pairs serialises to. Percent-decoding is not modelled: every value the
 * pages put in a query is already free of '&'.
 */
module UrlQueries {
  import opened Wrappers
  import opened JavaStrings

  /** `key=value` split at the first '='; a pair without one has an empty value. */
  function SplitPair(p: string): (kv: (string, string))
    ensures '=' !in kv.0
    decreases |p|
  {
    if |p| == 0 then ("", "")
    else if p[0] == '=' then ("", p[1..])
    else
      var rest := SplitPair(p[1..]);
      ([p[0]] + rest.0, rest.1)
  }

  lemma {:induction false} SplitPairOf(k: string, v: string)
    requires '=' !in k
    ensures SplitPair(k + "=" + v) == (k, v)
    decreases |k|
  {
    if |k| == 0 {
      assert k + "=" + v == "=" + v;
    } else {
      assert (k + "=" + v)[1..] == k[1..] + "=" + v;
      SplitPairOf(k[1..], v);
      assert [k[0]] + k[1..] == k;
    }
  }

  /** The first pair with the name, among the '&'-separated pairs. */
  function FirstValue(pairs: seq<string>, name: string): Option<string>
    decreases |pairs|
  {
    if |pairs| == 0 then None
    else if SplitPair(pairs[0]).0 == name then Some(SplitPair(pairs[0]).1)
    else FirstValue(pairs[1..], name)
  }

  /** `new URLSearchParams(search).get(name)` for a query that needs no decoding. */
  function QueryParam(search: string, name: string): Option<string> {
    var body := if |search| > 0 && search[0] == '?' then search[1..] else search;
    FirstValue(SplitAll(body, '&'), name)
  }

  /** `name=value` */
  function PairText(p: (string, string)): string {
    p.0 + "=" + p.1
  }

  /** The pairs' texts, in order. */
  function PairTexts(pairs: seq<(string, string)>): (r: seq<string>)
    ensures |r| == |pairs| && forall i :: 0 <= i < |pairs| ==> r[i] == PairText(pairs[i])
  {
    if |pairs| == 0 then [] else [PairText(pairs[0])] + PairTexts(pairs[1..])
  }

  /** Pairs a query can carry: names without '=' or '&', values without '&', no name twice. */
  predicate WellFormedPairs(pairs: seq<(string, string)>) {
    (forall i :: 0 <= i < |pairs| ==> '=' !in pairs[i].0 && '&' !in pairs[i].0 && '&' !in pairs[i].1)
    && (forall i, j :: 0 <= i < j < |pairs| ==> pairs[i].0 != pairs[j].0)
  }

  /** Among texts of distinct pairs, the i-th name finds the i-th value. */
  lemma {:induction false} FirstValueOfPairs(pairs: seq<(string, string)>, i: nat)
    requires WellFormedPairs(pairs) && i < |pairs|
    ensures FirstValue(PairTexts(pairs), pairs[i].0) == Some(pairs[i].1)
    decreases i
  {
    var texts := PairTexts(pairs);
    SplitPairOf(pairs[0].0, pairs[0].1);
    if i > 0 {
      assert pairs[0].0 != pairs[i].0;
      assert PairTexts(pairs[1..]) == texts[1..];
      assert WellFormedPairs(pairs[1..]) by {
        forall a, b | 0 <= a < b < |pairs[1..]| ensures pairs[1..][a].0 != pairs[1..][b].0 {
          assert pairs[1..][a] == pairs[a + 1] && pairs[1..][b] == pairs[b + 1];
        }
      }
      FirstValueOfPairs(pairs[1..], i - 1);
    }
  }

  /** A name that no pair has finds nothing. */
  lemma {:induction false} FirstValueOfMissing(pairs: seq<(string, string)>, name: string)
    requires forall i :: 0 <= i < |pairs| ==> '=' !in pairs[i].0 && pairs[i].0 != name
    ensures FirstValue(PairTexts(pairs), name).None?
    decreases |pairs|
  {
    if |pairs| > 0 {
      SplitPairOf(pairs[0].0, pairs[0].1);
      assert PairTexts(pairs[1..]) == PairTexts(pairs)[1..];
      FirstValueOfMissing(pairs[1..], name);
    }
  }

  /** `params.toString()` */
  function QueryText(pairs: seq<(string, string)>): (q: string)
    ensures q == "" <==> pairs == []
  {
    var texts := PairTexts(pairs);
    if |pairs| == 0 then ""
    else
      JoinNonEmpty(texts, '&');
      Join(texts, '&')
  }

  lemma {:induction false} JoinNonEmpty(parts: seq<string>, c: char)
    requires |parts| >= 1 && parts[0] != ""
    ensures Join(parts, c) != ""
  {
    if |parts| > 1 {
      assert Join(parts, c)[0] == parts[0][0];
    }
  }

  /** Reading back a serialised query: each pair's name gives its value, and other names give nothing. */
  lemma QueryTextReadsBack(pairs: seq<(string, string)>, name: string)
    requires WellFormedPairs(pairs) && |pairs| >= 1
    ensures forall i :: 0 <= i < |pairs| ==> QueryParam("?" + QueryText(pairs), pairs[i].0) == Some(pairs[i].1)
    ensures (forall i :: 0 <= i < |pairs| ==> pairs[i].0 != name) ==> QueryParam("?" + QueryText(pairs), name).None?
  {
    var texts := PairTexts(pairs);
    forall i | 0 <= i < |texts| ensures '&' !in texts[i] {
      assert texts[i] == pairs[i].0 + "=" + pairs[i].1;
    }
    JoinThenSplitAll(texts, '&');
    var search := "?" + QueryText(pairs);
    assert search[1..] == Join(texts, '&');
    forall i | 0 <= i < |pairs| ensures QueryParam(search, pairs[i].0) == Some(pairs[i].1) {
      FirstValueOfPairs(pairs, i);
    }
    if forall i :: 0 <= i < |pairs| ==> pairs[i].0 != name {
      FirstValueOfMissing(pairs, name);
    }
  }
}
