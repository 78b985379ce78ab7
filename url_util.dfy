/** The two helpers of the URL classifier (`src/ml/url_classifier/util.py`):
    the character vocabulary built from a list of URLs, and the merge of
    two settings dictionaries. */
module UrlUtil {
  import opened Wrappers

  // ---------------------------------------------------------------------
  // extract_text_model

  /** The dictionary `extract_text_model` returns. */
  datatype TextModel = TextModel(
    nInputTokens: nat,
    char2idx: map<char, nat>,
    idx2char: map<nat, char>,
    maxUrlSeqLength: nat)

  /** The characters of the URLs one after the other, in the order the
      loops visit them. */
  function Flat(urls: seq<string>): string {
    if urls == [] then "" else Flat(urls[..|urls| - 1]) + urls[|urls| - 1]
  }

  /** The distinct characters of `s` in order of first occurrence. */
  function Firsts(s: string): seq<char> {
    if s == [] then []
    else
      var f := Firsts(s[..|s| - 1]);
      if s[|s| - 1] in f then f else f + [s[|s| - 1]]
  }

  /** Each character of `order` mapped to its place in it. */
  function IndexMap(order: seq<char>): map<char, nat> {
    if order == [] then map[]
    else IndexMap(order[..|order| - 1])[order[|order| - 1] := |order| - 1]
  }

  /** The running `max(max_url_seq_length, len(url))`. */
  function MaxLen(urls: seq<string>): nat {
    if urls == [] then 0
    else
      var m := MaxLen(urls[..|urls| - 1]);
      if |urls[|urls| - 1]| > m then |urls[|urls| - 1]| else m
  }

  predicate DistinctChars(s: seq<char>) {
    forall a, b :: 0 <= a < b < |s| ==> s[a] != s[b]
  }

  lemma {:induction false} FirstsFacts(s: string)
    ensures DistinctChars(Firsts(s))
    ensures forall c :: c in Firsts(s) <==> c in s
  {
    if s != [] {
      var init := s[..|s| - 1];
      FirstsFacts(init);
      assert s == init + [s[|s| - 1]];
      assert forall c :: c in s <==> c in init || c == s[|s| - 1];
    }
  }

  lemma {:induction false} IndexMapKeys(order: seq<char>)
    ensures forall c :: c in IndexMap(order) <==> c in order
  {
    if order != [] {
      var init := order[..|order| - 1];
      IndexMapKeys(init);
      assert order == init + [order[|order| - 1]];
    }
  }

  lemma {:induction false} IndexMapAt(order: seq<char>)
    requires DistinctChars(order)
    ensures forall i :: 0 <= i < |order| ==> order[i] in IndexMap(order) && IndexMap(order)[order[i]] == i
  {
    if order != [] {
      var init := order[..|order| - 1];
      assert DistinctChars(init);
      IndexMapAt(init);
      IndexMapKeys(order);
    }
  }

  lemma {:induction false} IndexMapCard(order: seq<char>)
    requires DistinctChars(order)
    ensures |IndexMap(order)| == |order|
  {
    if order != [] {
      var init := order[..|order| - 1];
      var last := order[|order| - 1];
      assert DistinctChars(init);
      IndexMapCard(init);
      IndexMapKeys(init);
      assert last !in init;
      assert IndexMap(order).Keys == IndexMap(init).Keys + {last};
    }
  }

  lemma IndexMapFacts(order: seq<char>)
    requires DistinctChars(order)
    ensures forall c :: c in IndexMap(order) <==> c in order
    ensures forall i :: 0 <= i < |order| ==> IndexMap(order)[order[i]] == i
    ensures |IndexMap(order)| == |order|
  {
    IndexMapKeys(order);
    IndexMapAt(order);
    IndexMapCard(order);
  }

  /** `extract_text_model(urls)`. */
  method ExtractTextModel(urls: seq<string>) returns (m: TextModel)
    ensures m.char2idx == IndexMap(Firsts(Flat(urls)))
    ensures m.nInputTokens == |m.char2idx|
    ensures forall i :: i in m.idx2char <==> i in m.char2idx.Values
    ensures forall c :: c in m.char2idx ==> m.idx2char[m.char2idx[c]] == c
    ensures m.maxUrlSeqLength == MaxLen(urls)
  {
    var char2idx: map<char, nat> := map[];
    var maxLen: nat := 0;
    for k := 0 to |urls|
      invariant char2idx == IndexMap(Firsts(Flat(urls[..k])))
      invariant maxLen == MaxLen(urls[..k])
    {
      var url := urls[k];
      FlatStep(urls, k);
      if |url| > maxLen {
        maxLen := |url|;
      }
      ghost var base := Flat(urls[..k]);
      assert base + url[..0] == base;
      for j := 0 to |url|
        invariant char2idx == IndexMap(Firsts(base + url[..j]))
      {
        var ch := url[j];
        VocabStep(base, url, j);
        if ch !in char2idx {
          char2idx := char2idx[ch := |char2idx|];
        }
      }
      assert url[..|url|] == url;
    }
    assert urls[..|urls|] == urls;
    IndexMapInjective(Flat(urls));
    var idx2char := map c | c in char2idx :: char2idx[c] := c;
    m := TextModel(|char2idx|, char2idx, idx2char, maxLen);
  }

  lemma FlatStep(urls: seq<string>, k: nat)
    requires k < |urls|
    ensures Flat(urls[..k + 1]) == Flat(urls[..k]) + urls[k]
    ensures MaxLen(urls[..k + 1]) == if |urls[k]| > MaxLen(urls[..k]) then |urls[k]| else MaxLen(urls[..k])
  {
    assert urls[..k + 1][..k] == urls[..k];
  }

  /** One character of the inner loop: a character not yet numbered gets
      the next number, `len(char2idx)`. */
  lemma VocabStep(base: string, url: string, j: nat)
    requires j < |url|
    ensures url[j] in IndexMap(Firsts(base + url[..j])) ==>
      IndexMap(Firsts(base + url[..j + 1])) == IndexMap(Firsts(base + url[..j]))
    ensures url[j] !in IndexMap(Firsts(base + url[..j])) ==>
      IndexMap(Firsts(base + url[..j + 1])) == IndexMap(Firsts(base + url[..j]))[url[j] := |IndexMap(Firsts(base + url[..j]))|]
  {
    var seen := base + url[..j];
    assert base + url[..j + 1] == seen + [url[j]];
    assert (seen + [url[j]])[..|seen|] == seen;
    FirstsFacts(seen);
    IndexMapFacts(Firsts(seen));
  }

  /** No two characters share a number. */
  lemma IndexMapInjective(s: string)
    ensures forall c, d :: (c in IndexMap(Firsts(s)) && d in IndexMap(Firsts(s)) &&
      IndexMap(Firsts(s))[c] == IndexMap(Firsts(s))[d]) ==> c == d
  {
    var order := Firsts(s);
    FirstsFacts(s);
    IndexMapFacts(order);
    forall c, d | c in IndexMap(order) && d in IndexMap(order) && IndexMap(order)[c] == IndexMap(order)[d]
      ensures c == d
    {
      var i :| 0 <= i < |order| && order[i] == c;
      var j :| 0 <= j < |order| && order[j] == d;
    }
  }

  /** The first place `c` occurs in `s`. */
  function FirstPos(s: string, c: char): (r: nat)
    requires c in s
    ensures r < |s| && s[r] == c
    ensures forall k :: 0 <= k < r ==> s[k] != c
  {
    if s[0] == c then 0
    else
      assert c in s[1..] by {
        var k :| 0 <= k < |s| && s[k] == c;
        assert s[1..][k - 1] == c;
      }
      1 + FirstPos(s[1..], c)
  }

  lemma {:induction false} FirstPosIs(s: string, c: char, r: nat)
    requires r < |s| && s[r] == c
    requires forall k :: 0 <= k < r ==> s[k] != c
    ensures FirstPos(s, c) == r
    decreases r
  {
    if s[0] != c {
      assert s[1..][r - 1] == c;
      FirstPosIs(s[1..], c, r - 1);
    }
  }

  /** The vocabulary holds every character of every URL and nothing
      else. */
  lemma VocabularyKeys(urls: seq<string>)
    ensures forall c :: c in IndexMap(Firsts(Flat(urls))) <==> c in Flat(urls)
  {
    FirstsFacts(Flat(urls));
    IndexMapKeys(Firsts(Flat(urls)));
  }

  /** The numbers are `0, 1, 2, …` with no gaps: each is below the size of
      the vocabulary, and no two characters share one. */
  lemma VocabularyDense(urls: seq<string>)
    ensures forall c :: c in IndexMap(Firsts(Flat(urls))) ==> IndexMap(Firsts(Flat(urls)))[c] < |IndexMap(Firsts(Flat(urls)))|
    ensures forall c, d :: (c in IndexMap(Firsts(Flat(urls))) && d in IndexMap(Firsts(Flat(urls))) &&
      IndexMap(Firsts(Flat(urls)))[c] == IndexMap(Firsts(Flat(urls)))[d]) ==> c == d
  {
    var order := Firsts(Flat(urls));
    FirstsFacts(Flat(urls));
    IndexMapFacts(order);
    IndexMapInjective(Flat(urls));
    forall c | c in IndexMap(order) ensures IndexMap(order)[c] < |IndexMap(order)| {
      var i :| 0 <= i < |order| && order[i] == c;
    }
  }

  /** A character gets a smaller number exactly when it first occurs
      earlier in the URLs. */
  lemma VocabularyOrder(urls: seq<string>, c: char, d: char)
    requires c in Flat(urls) && d in Flat(urls)
    ensures c in IndexMap(Firsts(Flat(urls))) && d in IndexMap(Firsts(Flat(urls)))
    ensures IndexMap(Firsts(Flat(urls)))[c] < IndexMap(Firsts(Flat(urls)))[d] <==> FirstPos(Flat(urls), c) < FirstPos(Flat(urls), d)
  {
    var s := Flat(urls);
    var order := Firsts(s);
    FirstsFacts(s);
    IndexMapKeys(order);
    IndexMapAt(order);
    var i :| 0 <= i < |order| && order[i] == c;
    var j :| 0 <= j < |order| && order[j] == d;
    assert IndexMap(order)[c] == i && IndexMap(order)[d] == j;
    FirstsOrdered(s, i, j);
  }

  lemma FirstsOrdered(s: string, i: nat, j: nat)
    requires i < |Firsts(s)| && j < |Firsts(s)|
    ensures Firsts(s)[i] in s && Firsts(s)[j] in s
    ensures i < j <==> FirstPos(s, Firsts(s)[i]) < FirstPos(s, Firsts(s)[j])
  {
    FirstsIncreasing(s);
  }

  /** The characters of `Firsts(s)` appear in the order of their first
      occurrence in `s`. */
  lemma {:induction false} FirstsIncreasing(s: string)
    ensures forall k :: 0 <= k < |Firsts(s)| ==> Firsts(s)[k] in s
    ensures forall i, j :: 0 <= i < j < |Firsts(s)| ==> FirstPos(s, Firsts(s)[i]) < FirstPos(s, Firsts(s)[j])
  {
    FirstsFacts(s);
    if s != [] {
      var init := s[..|s| - 1];
      var last := s[|s| - 1];
      var f := Firsts(init);
      FirstsIncreasing(init);
      assert s == init + [last];
      forall k | 0 <= k < |f|
        ensures FirstPos(s, f[k]) == FirstPos(init, f[k]) < |init|
      {
        FirstPosPrefix(init, last, f[k]);
      }
      if last !in f {
        FirstsFacts(init);
        FirstPosIs(s, last, |init|);
        assert Firsts(s) == f + [last];
      }
    }
  }

  lemma FirstPosPrefix(init: string, last: char, c: char)
    requires c in init
    ensures c in init + [last] && FirstPos(init + [last], c) == FirstPos(init, c)
  {
    FirstPosIs(init + [last], c, FirstPos(init, c));
  }

  /** `max_url_seq_length` is the length of the longest URL, or 0 for no
      URLs. */
  lemma {:induction false} MaxLenMeaning(urls: seq<string>)
    ensures forall u :: u in urls ==> |u| <= MaxLen(urls)
    ensures urls == [] ==> MaxLen(urls) == 0
    ensures urls != [] ==> exists u :: u in urls && |u| == MaxLen(urls)
  {
    if urls != [] {
      var init := urls[..|urls| - 1];
      MaxLenMeaning(init);
      assert urls == init + [urls[|urls| - 1]];
      assert forall u :: u in urls <==> u in init || u == urls[|urls| - 1];
    }
  }

  // ---------------------------------------------------------------------
  // merge_dict

  /** `merge_dict(dict1, dict2)`: a copy of `dict1` in which every key of
      `dict2` whose value is not None takes that value. */
  method MergeDict<K, V>(dict1: map<K, Option<V>>, dict2: map<K, Option<V>>) returns (merged: map<K, Option<V>>)
    ensures forall k :: k in merged <==> k in dict1 || (k in dict2 && dict2[k].Some?)
    ensures forall k :: k in merged ==> merged[k] == if k in dict2 && dict2[k].Some? then dict2[k] else dict1[k]
  {
    merged := dict1;
    var rest := dict2.Keys;
    while rest != {}
      invariant rest <= dict2.Keys
      invariant forall k :: k in merged <==> k in dict1 || (k in dict2 && k !in rest && dict2[k].Some?)
      invariant forall k :: k in merged ==>
        merged[k] == if k in dict2 && k !in rest && dict2[k].Some? then dict2[k] else dict1[k]
      decreases |rest|
    {
      var key :| key in rest;
      var value := dict2[key];
      if value.Some? {
        merged := merged[key := value];
      }
      rest := rest - {key};
    }
  }
}
