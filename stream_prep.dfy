/** The line helpers of the streaming parser: the character span of a token
    (`get_span`), the position record of an indicator found in a line
    (`get_ioc_param`) and the masking of entity matches (`preprocess`).

    Regular-expression matching is not modelled: the matches a rule's regex
    finds are given as spans, in the order `re.finditer` yields them. */
module StreamPrep {
  import opened Wrappers
  import opened Tokens

  // ---------------------------------------------------------------------
  // get_span

  /** The offset of token `i` in `' '.join(ts)`: every earlier token and the
      single space after it. */
  function SpanStart(ts: seq<string>, i: nat): nat
    requires i <= |ts|
  {
    if i == 0 then 0 else SpanStart(ts, i - 1) + |ts[i - 1]| + 1
  }

  /** `get_span(seq, idx)`: the character span `(start, end)` of token `idx`,
      or None when there is no such token. */
  method GetSpan(tokens: seq<string>, idx: int) returns (r: Option<(nat, nat)>)
    ensures r.None? <==> !(0 <= idx < |tokens|)
    ensures r.Some? ==> r.value.0 == SpanStart(tokens, idx) && r.value.1 == r.value.0 + |tokens[idx]|
  {
    var start: nat := 0;
    var i := 0;
    while i < |tokens|
      invariant 0 <= i <= |tokens|
      invariant start == SpanStart(tokens, i)
      invariant !(0 <= idx < i)
    {
      if i == idx {
        return Some((start, start + |tokens[i]|));
      }
      start := start + |tokens[i]| + 1;
      i := i + 1;
    }
    return None;
  }

  lemma {:induction false} SpanStartTail(ts: seq<string>, i: nat)
    requires 1 <= i <= |ts|
    ensures SpanStart(ts, i) == |ts[0]| + 1 + SpanStart(ts[1..], i - 1)
  {
    if i > 1 {
      SpanStartTail(ts, i - 1);
    }
  }

  lemma JoinHead(ts: seq<string>)
    requires |ts| >= 1
    ensures |JoinSpace(ts)| >= |ts[0]| && JoinSpace(ts)[..|ts[0]|] == ts[0]
  {
  }

  /** The span `get_span` returns is where token `idx` sits in
      `' '.join(tokens)`. */
  lemma {:induction false} SpanInJoin(ts: seq<string>, idx: nat)
    requires idx < |ts|
    ensures SpanStart(ts, idx) + |ts[idx]| <= |JoinSpace(ts)|
    ensures JoinSpace(ts)[SpanStart(ts, idx)..SpanStart(ts, idx) + |ts[idx]|] == ts[idx]
  {
    if idx == 0 {
      JoinHead(ts);
    } else {
      SpanInJoin(ts[1..], idx - 1);
      SpanStartTail(ts, idx);
      var j := JoinSpace(ts[1..]);
      assert JoinSpace(ts) == ts[0] + " " + j;
      var s := SpanStart(ts[1..], idx - 1);
      assert ts[1..][idx - 1] == ts[idx];
      assert JoinSpace(ts)[|ts[0]| + 1 + s..|ts[0]| + 1 + s + |ts[idx]|] == j[s..s + |ts[idx]|];
    }
  }

  /** The text in front of token `idx > 0` is the earlier tokens joined,
      followed by one space. */
  lemma {:induction false} JoinBefore(ts: seq<string>, idx: nat)
    requires 0 < idx < |ts|
    ensures SpanStart(ts, idx) <= |JoinSpace(ts)|
    ensures JoinSpace(ts)[..SpanStart(ts, idx)] == JoinSpace(ts[..idx]) + " "
  {
    SpanStartTail(ts, idx);
    var j := JoinSpace(ts[1..]);
    assert JoinSpace(ts) == ts[0] + " " + j;
    if idx == 1 {
      assert SpanStart(ts[1..], 0) == 0;
      assert JoinSpace(ts)[..|ts[0]| + 1] == ts[0] + " ";
      assert ts[..1] == [ts[0]];
    } else {
      JoinBefore(ts[1..], idx - 1);
      var s := SpanStart(ts[1..], idx - 1);
      assert JoinSpace(ts)[..|ts[0]| + 1 + s] == ts[0] + " " + j[..s];
      assert ts[1..][..idx - 1] == ts[..idx][1..];
      assert JoinSpace(ts[..idx]) == ts[0] + " " + JoinSpace(ts[..idx][1..]);
    }
  }

  /** The text from token `idx > 0` on is the later tokens joined. */
  lemma {:induction false} JoinAfter(ts: seq<string>, idx: nat)
    requires 0 < idx < |ts|
    ensures SpanStart(ts, idx) + |JoinSpace(ts[idx..])| == |JoinSpace(ts)|
    ensures JoinSpace(ts)[SpanStart(ts, idx)..] == JoinSpace(ts[idx..])
  {
    SpanStartTail(ts, idx);
    var j := JoinSpace(ts[1..]);
    assert JoinSpace(ts) == ts[0] + " " + j;
    if idx == 1 {
      assert SpanStart(ts[1..], 0) == 0;
      assert JoinSpace(ts)[|ts[0]| + 1..] == j;
    } else {
      JoinAfter(ts[1..], idx - 1);
      assert ts[1..][idx - 1..] == ts[idx..];
      var s := SpanStart(ts[1..], idx - 1);
      assert JoinSpace(ts)[|ts[0]| + 1 + s..] == j[s..];
    }
  }

  /** Splitting joined words followed by a space gives the words and one
      trailing empty piece. */
  lemma {:induction false} SplitJoinSpace(ws: seq<string>)
    requires |ws| >= 1 && forall k :: 0 <= k < |ws| ==> IsWord(ws[k])
    ensures SplitWs(JoinSpace(ws) + " ") == ws + [""]
  {
    var sp := SplitWs(" ");
    assert sp == ["", ""] by {
      assert LStrip(" ") == "";
    }
    if |ws| == 1 {
      SplitAfterWord(ws[0], " ");
      assert JoinSpace(ws) + " " == ws[0] + " ";
      assert ws[0] + sp[0] == ws[0] && sp[1..] == [""];
      assert ws == [ws[0]];
    } else {
      var j := JoinSpace(ws[1..]) + " ";
      SplitJoinSpace(ws[1..]);
      JoinStartsWithWord(ws[1..]);
      assert j[0] == JoinSpace(ws[1..])[0];
      SplitAfterSpace(j);
      assert JoinSpace(ws) + " " == ws[0] + (" " + j);
      SplitAfterWord(ws[0], " " + j);
      assert ws[0] + "" == ws[0];
      assert ws + [""] == [ws[0]] + (ws[1..] + [""]);
    }
  }

  // ---------------------------------------------------------------------
  // get_ioc_param

  /** `s[i:i+len(w)] == w` */
  predicate OccursAt(s: string, w: string, i: nat) {
    i + |w| <= |s| && s[i..i + |w|] == w
  }

  function FindFrom(s: string, w: string, i: nat): int
    decreases |s| - i
  {
    if i + |w| > |s| then -1 else if s[i..i + |w|] == w then i else FindFrom(s, w, i + 1)
  }

  /** `s.find(w)`: the first index where `w` occurs, or -1. */
  function Find(s: string, w: string): int {
    FindFrom(s, w, 0)
  }

  lemma {:induction false} FindFromFacts(s: string, w: string, i: nat)
    ensures var r := FindFrom(s, w, i);
      (r == -1 || (i <= r && OccursAt(s, w, r)))
      && (forall k: nat :: i <= k && (r == -1 || k < r) ==> !OccursAt(s, w, k))
    decreases |s| - i
  {
    if i + |w| <= |s| && s[i..i + |w|] != w {
      FindFromFacts(s, w, i + 1);
    }
  }

  /** `s.find(w)` is -1 exactly when `w` does not occur in `s`, and otherwise
      the first place it occurs. */
  lemma FindFacts(s: string, w: string)
    ensures Find(s, w) == -1 <==> forall k: nat :: !OccursAt(s, w, k)
    ensures Find(s, w) >= 0 ==> OccursAt(s, w, Find(s, w))
    ensures Find(s, w) >= 0 ==> forall k: nat :: k < Find(s, w) ==> !OccursAt(s, w, k)
  {
    FindFromFacts(s, w, 0);
  }

  /** `s[:k]` for any integer `k`: a negative end counts from the back. */
  function PyPrefix(s: string, k: int): (r: string)
    ensures |r| <= |s|
  {
    if k >= 0 then s[..if k <= |s| then k else |s|]
    else s[..if |s| + k >= 0 then |s| + k else 0]
  }

  /** The list `get_ioc_param` returns. */
  datatype IocParam = IocParam(charStart: int, charEnd: int, ioc: string, iocType: string,
                               tokenStart: int, tokenEnd: int)

  /** `get_ioc_param(ioc_type, ioc, line)`: where `ioc` first occurs in
      `line`, in characters and in whitespace tokens. When `ioc` is absent the
      start is -1, and the token index is taken over `line[:-1]`. */
  function GetIocParam(iocType: string, ioc: string, line: string): (r: IocParam)
    ensures r.charEnd - r.charStart == |ioc| && r.tokenEnd == r.tokenStart + 1
    ensures r.ioc == ioc && r.iocType == iocType && r.tokenStart >= 0
    ensures r.charStart == -1 <==> forall k: nat :: !OccursAt(line, ioc, k)
    ensures r.charStart >= 0 ==> r.charEnd <= |line| && line[r.charStart..r.charEnd] == ioc
  {
    FindFacts(line, ioc);
    var charStart := Find(line, ioc);
    var tokenStart := |SplitWs(PyPrefix(line, charStart))| - 1;
    IocParam(charStart, charStart + |ioc|, ioc, iocType, tokenStart, tokenStart + 1)
  }

  /** On a line of words joined by single spaces, the token index
      `get_ioc_param` reports is the token whose `get_span` starts where the
      indicator was found. */
  lemma IocTokenIndex(iocType: string, ioc: string, ts: seq<string>, idx: nat)
    requires forall k :: 0 <= k < |ts| ==> IsWord(ts[k])
    requires idx < |ts| && Find(JoinSpace(ts), ioc) == SpanStart(ts, idx)
    ensures GetIocParam(iocType, ioc, JoinSpace(ts)).tokenStart == idx
  {
    var line := JoinSpace(ts);
    if idx == 0 {
      assert PyPrefix(line, 0) == "";
    } else {
      JoinBefore(ts, idx);
      SplitJoinSpace(ts[..idx]);
    }
  }

  // ---------------------------------------------------------------------
  // preprocess

  /** `(match.start(), match.end())` of one regex match. */
  datatype Span = Span(start: nat, end: nat)

  /** One entry of the ordered rule table with the matches its regex finds
      in the text the rule is applied to. */
  datatype Rule = Rule(entity: string, matches: seq<Span>)

  /** The list `preprocess` records for a match. */
  datatype PreParam = PreParam(start: nat, end: nat, text: string, entity: string,
                               tokenStart: nat, tokenEnd: nat)

  function Min(a: nat, b: nat): nat {
    if a <= b then a else b
  }

  /** `s[:k]` */
  function Head(s: string, k: nat): string {
    s[..Min(k, |s|)]
  }

  /** `s[k:]` */
  function Tail(s: string, k: nat): string {
    s[Min(k, |s|)..]
  }

  /** `s[a:b]` */
  function Slice(s: string, a: nat, b: nat): string {
    if Min(a, |s|) <= Min(b, |s|) then s[Min(a, |s|)..Min(b, |s|)] else ""
  }

  /** `c.upper()` on ASCII letters. */
  function UpperChar(c: char): (r: char)
    ensures 'a' <= c <= 'z' ==> r as int == c as int - 32
    ensures !('a' <= c <= 'z') ==> r == c
  {
    if 'a' <= c <= 'z' then (c as int - 32) as char else c
  }

  function Upper(s: string): (r: string)
    ensures |r| == |s| && forall i :: 0 <= i < |s| ==> r[i] == UpperChar(s[i])
  {
    if s == [] then [] else [UpperChar(s[0])] + Upper(s[1..])
  }

  /** `'<{}>'.format(entity.upper())`, the mask put over a match. */
  function Tag(entity: string): string {
    "<" + Upper(entity) + ">"
  }

  /** `'{}<{}>{}'.format(f[:start], entity.upper(), f[end:])` */
  function Splice(f: string, m: Span, tag: string): string {
    Head(f, m.start) + tag + Tail(f, m.end)
  }

  /** The record of a match: its span and text in `snap` (the text the
      rule's regex ran on) and the number of words of the ORIGINAL line in
      front of its start. */
  function ParamOf(line: string, snap: string, entity: string, m: Span): PreParam {
    var t := CountWords(Head(line, m.start));
    PreParam(m.start, m.end, Slice(snap, m.start, m.end), entity, t, t + 1)
  }

  /** The text the inner loop of `preprocess` builds: every match of one
      rule spliced, in order, into the text that keeps changing, each at the
      offsets it had in `snap`. */
  function SpliceInOrder(snap: string, ms: seq<Span>, tag: string): string
    decreases |ms|
  {
    if ms == [] then snap
    else Splice(SpliceInOrder(snap, ms[..|ms| - 1], tag), ms[|ms| - 1], tag)
  }

  /** The records the inner loop of `preprocess` appends, one per match. */
  function MatchParams(line: string, snap: string, entity: string, ms: seq<Span>): (r: seq<PreParam>)
    ensures |r| == |ms|
  {
    seq(|ms|, k requires 0 <= k < |ms| => ParamOf(line, snap, entity, ms[k]))
  }

  /** `preprocess(line, regexs)`: the masked line and the match records. */
  function PreprocessSpec(line: string, rules: seq<Rule>): (string, seq<PreParam>)
  {
    if rules == [] then (line, [])
    else
      var prev := PreprocessSpec(line, rules[..|rules| - 1]);
      var rule := rules[|rules| - 1];
      (SpliceInOrder(prev.0, rule.matches, Tag(rule.entity)),
       prev.1 + MatchParams(line, prev.0, rule.entity, rule.matches))
  }

  /** One more rule applied to the text the rules before produced. */
  lemma PreprocessLast(line: string, rules: seq<Rule>, rule: Rule)
    ensures var prev := PreprocessSpec(line, rules);
      PreprocessSpec(line, rules + [rule])
      == (SpliceInOrder(prev.0, rule.matches, Tag(rule.entity)),
          prev.1 + MatchParams(line, prev.0, rule.entity, rule.matches))
  {
    assert (rules + [rule])[..|rules|] == rules;
  }

  /** `preprocess`, with the loops of the source. */
  method Preprocess(line: string, rules: seq<Rule>) returns (formatted: string, params: seq<PreParam>)
    ensures (formatted, params) == PreprocessSpec(line, rules)
  {
    formatted := line;
    params := [];
    var r := 0;
    while r < |rules|
      invariant 0 <= r <= |rules|
      invariant (formatted, params) == PreprocessSpec(line, rules[..r])
    {
      var f, ps := ApplyRule(line, formatted, rules[r].entity, rules[r].matches);
      PreprocessLast(line, rules[..r], rules[r]);
      assert rules[..r + 1] == rules[..r] + [rules[r]];
      formatted, params := f, params + ps;
      r := r + 1;
    }
    assert rules[..r] == rules;
  }

  /** The inner loop of `preprocess`, over the matches of one rule found in
      `snap`. */
  method ApplyRule(line: string, snap: string, entity: string, matches: seq<Span>)
    returns (formatted: string, params: seq<PreParam>)
    ensures formatted == SpliceInOrder(snap, matches, Tag(entity))
    ensures params == MatchParams(line, snap, entity, matches)
  {
    formatted := snap;
    params := [];
    var k := 0;
    while k < |matches|
      invariant 0 <= k <= |matches|
      invariant formatted == SpliceInOrder(snap, matches[..k], Tag(entity))
      invariant params == MatchParams(line, snap, entity, matches[..k])
    {
      var m := matches[k];
      assert matches[..k + 1][..k] == matches[..k];
      formatted := Head(formatted, m.start) + "<" + Upper(entity) + ">" + Tail(formatted, m.end);
      var tokenStart := CountWords(Head(line, m.start));
      params := params + [PreParam(m.start, m.end, Slice(snap, m.start, m.end), entity, tokenStart, tokenStart + 1)];
      assert params == MatchParams(line, snap, entity, matches[..k + 1]);
      k := k + 1;
    }
    assert matches[..k] == matches;
  }

  /** What `preprocess` records: each entry is a match of some rule, with
      that rule's entity and the one-token range starting at the number of
      words of the original line in front of the match; there is one entry
      per match. */
  lemma {:induction false} PreprocessParams(line: string, rules: seq<Rule>)
    ensures var ps := PreprocessSpec(line, rules).1;
      forall p <- ps ::
        p.tokenStart == CountWords(Head(line, p.start)) && p.tokenEnd == p.tokenStart + 1 &&
        exists rule <- rules :: p.entity == rule.entity && Span(p.start, p.end) in rule.matches
  {
    if rules != [] {
      var init := rules[..|rules| - 1];
      var rule := rules[|rules| - 1];
      PreprocessParams(line, init);
      PreprocessLast(line, init, rule);
      assert init + [rule] == rules;
      var prev := PreprocessSpec(line, init);
      var ps := MatchParams(line, prev.0, rule.entity, rule.matches);
      forall p <- ps
        ensures p.tokenStart == CountWords(Head(line, p.start)) && p.tokenEnd == p.tokenStart + 1
        ensures p.entity == rule.entity && Span(p.start, p.end) in rule.matches
      {
        var k :| 0 <= k < |ps| && ps[k] == p;
        assert Span(p.start, p.end) == rule.matches[k];
      }
    }
  }

  /** One more match spliced after the ones before. */
  lemma SpliceInOrderLast(snap: string, ms: seq<Span>, m: Span, tag: string)
    ensures SpliceInOrder(snap, ms + [m], tag) == Splice(SpliceInOrder(snap, ms, tag), m, tag)
  {
    assert (ms + [m])[..|ms|] == ms;
  }

  /** A single match, as in a line with one IP address: the line keeps its
      text up to the match, the mask starts at the match, and the record
      holds the matched text. */
  lemma SingleMatch(line: string, entity: string, m: Span)
    requires m.start <= m.end <= |line|
    ensures PreprocessSpec(line, [Rule(entity, [m])]).0 == line[..m.start] + Tag(entity) + line[m.end..]
    ensures PreprocessSpec(line, [Rule(entity, [m])]).0[m.start..m.start + |Tag(entity)|] == Tag(entity)
    ensures PreprocessSpec(line, [Rule(entity, [m])]).1
      == [PreParam(m.start, m.end, line[m.start..m.end], entity,
                   CountWords(line[..m.start]), CountWords(line[..m.start]) + 1)]
  {
    var f := line[..m.start] + Tag(entity) + line[m.end..];
    SingleMatchText(line, entity, m);
    SingleMatchParams(line, entity, m);
    assert f[m.start..m.start + |Tag(entity)|] == Tag(entity);
  }

  lemma SingleMatchText(line: string, entity: string, m: Span)
    requires m.start <= m.end <= |line|
    ensures PreprocessSpec(line, [Rule(entity, [m])]).0 == line[..m.start] + Tag(entity) + line[m.end..]
  {
    var rule := Rule(entity, [m]);
    PreprocessLast(line, [], rule);
    assert [] + [rule] == [rule];
    assert PreprocessSpec(line, []).0 == line;
    SpliceInOrderLast(line, [], m, Tag(entity));
    assert [] + [m] == [m];
    assert Head(line, m.start) == line[..m.start];
    assert Tail(line, m.end) == line[m.end..];
  }

  lemma SingleMatchParams(line: string, entity: string, m: Span)
    requires m.start <= m.end <= |line|
    ensures PreprocessSpec(line, [Rule(entity, [m])]).1
      == [PreParam(m.start, m.end, line[m.start..m.end], entity,
                   CountWords(line[..m.start]), CountWords(line[..m.start]) + 1)]
  {
    var rule := Rule(entity, [m]);
    PreprocessLast(line, [], rule);
    assert [] + [rule] == [rule];
    assert PreprocessSpec(line, []) == (line, []);
    assert Head(line, m.start) == line[..m.start];
    assert Slice(line, m.start, m.end) == line[m.start..m.end];
    var t := CountWords(line[..m.start]);
    var p := PreParam(m.start, m.end, line[m.start..m.end], entity, t, t + 1);
    assert ParamOf(line, line, entity, m) == p;
    assert MatchParams(line, line, entity, [m]) == [p];
    assert [] + [p] == [p];
  }

  // ---------------------------------------------------------------------
  // The offsets of later matches of a rule go stale.

  /** What `re.finditer` yields on a text of length `n`: spans in ascending
      order that do not overlap. */
  predicate SpansOk(ms: seq<Span>, n: nat) {
    ms == [] ||
    (var m := ms[|ms| - 1]; m.start <= m.end <= n && SpansOk(ms[..|ms| - 1], m.start))
  }

  /** `re.sub(regex, tag, s)` for the matches `ms`: the text before the last
      match with its own matches replaced, the tag, and the text after. */
  function ReSub(s: string, ms: seq<Span>, tag: string): string
    requires SpansOk(ms, |s|)
    decreases |ms|
  {
    if ms == [] then s
    else
      var m := ms[|ms| - 1];
      ReSub(s[..m.start], ms[..|ms| - 1], tag) + tag + s[m.end..]
  }

  /** The inner loop corrected: the matches spliced from the last to the
      first, so the offsets of those still to do stay valid. */
  function SpliceFromRight(s: string, ms: seq<Span>, tag: string): string
    decreases |ms|
  {
    if ms == [] then s
    else
      var m := ms[|ms| - 1];
      SpliceFromRight(Splice(s, m, tag), ms[..|ms| - 1], tag)
  }

  /** Splicing matches that all lie in `x` does not touch what follows. */
  lemma {:induction false} SpliceFromRightPrefix(x: string, y: string, ms: seq<Span>, tag: string)
    requires SpansOk(ms, |x|)
    ensures SpliceFromRight(x + y, ms, tag) == SpliceFromRight(x, ms, tag) + y
    decreases |ms|
  {
    if ms != [] {
      var m := ms[|ms| - 1];
      var x' := Splice(x, m, tag);
      assert Splice(x + y, m, tag) == x' + y by {
        assert (x + y)[..m.start] == x[..m.start];
        assert (x + y)[m.end..] == x[m.end..] + y;
      }
      SpansOkMono(ms[..|ms| - 1], m.start, |x'|);
      SpliceFromRightPrefix(x', y, ms[..|ms| - 1], tag);
    }
  }

  lemma SpansOkMono(ms: seq<Span>, n: nat, n': nat)
    requires SpansOk(ms, n) && n <= n'
    ensures SpansOk(ms, n')
  {
  }

  /** Splicing from the right is the substitution of every match. */
  lemma {:induction false} SpliceFromRightIsSub(s: string, ms: seq<Span>, tag: string)
    requires SpansOk(ms, |s|)
    ensures SpliceFromRight(s, ms, tag) == ReSub(s, ms, tag)
    decreases |ms|
  {
    if ms != [] {
      var m := ms[|ms| - 1];
      var init := ms[..|ms| - 1];
      var x := s[..m.start];
      assert Splice(s, m, tag) == x + (tag + s[m.end..]);
      SpliceFromRightPrefix(x, tag + s[m.end..], init, tag);
      SpliceFromRightIsSub(x, init, tag);
    }
  }

  lemma TagExample()
    ensures Tag("e") == "<E>"
  {
    assert Upper("e") == [UpperChar('e')] + Upper("");
  }

  /** A rule whose regex matched `ab` twice in `x ab ab`: the source puts the
      second mask at the offsets the second match had before the first mask
      made the text one character longer. */
  lemma StaleOffsets()
    ensures PreprocessSpec("x ab ab", [Rule("e", [Span(2, 4), Span(5, 7)])]).0 == "x <E><E>b"
  {
    var ms := [Span(2, 4), Span(5, 7)];
    var s := "x ab ab";
    PreprocessLast(s, [], Rule("e", ms));
    assert [] + [Rule("e", ms)] == [Rule("e", ms)];
    assert PreprocessSpec(s, []).0 == s;
    TagExample();
    SpliceInOrderLast(s, [], Span(2, 4), "<E>");
    SpliceInOrderLast(s, [Span(2, 4)], Span(5, 7), "<E>");
    assert [] + [Span(2, 4)] == [Span(2, 4)];
    assert [Span(2, 4)] + [Span(5, 7)] == ms;
    assert s[..2] == "x " && s[4..] == " ab";
    var f1 := "x " + "<E>" + " ab";
    assert SpliceInOrder(s, [Span(2, 4)], "<E>") == f1;
    assert |f1| == 8;
    assert Head(f1, 5) == "x <E>";
    assert Tail(f1, 7) == "b";
    assert Splice(f1, Span(5, 7), "<E>") == "x <E>" + "<E>" + "b";
  }

  /** The same rule with every match replaced, as `re.sub` does it and as
      the corrected splice does it. */
  lemma SubExample()
    ensures SpansOk([Span(2, 4), Span(5, 7)], |"x ab ab"|)
    ensures ReSub("x ab ab", [Span(2, 4), Span(5, 7)], "<E>") == "x <E> <E>"
    ensures SpliceFromRight("x ab ab", [Span(2, 4), Span(5, 7)], Tag("e")) == "x <E> <E>"
  {
    var ms := [Span(2, 4), Span(5, 7)];
    TagExample();
    assert ms[..1] == [Span(2, 4)];
    assert [Span(2, 4)][..0] == [];
    assert SpansOk(ms[..1], 5);
    var s := "x ab ab";
    assert s[..5] == "x ab ";
    assert s[7..] == "";
    assert ReSub("x ab ", [Span(2, 4)], "<E>") == "x " + "<E>" + " ";
    SpliceFromRightIsSub(s, ms, "<E>");
  }
}
