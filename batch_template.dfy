/** `get_template` and `get_parameters` of the batch parser
    (`src/pyspell/spell.py`): the template an LCS leaves of a token list, and
    the parameters a line has against a template. Both walk the token list
    once while consuming a second list from its front (the source reverses
    it and pops from the end; here an index moves forward instead). A
    parameter's character offsets are those of `' '.join(...)` of the list
    walked, as `get_span` of the streaming parser computes them. */
module BatchTemplate {
  import opened Wrappers
  import opened Tokens
  import opened StreamPrep

  /** A parameter record `[start, end, value, None]`. */
  datatype Param = Param(start: nat, end: nat, value: string)

  /** What `get_template` returns: a bare list when the LCS is empty, a
      `(template, params)` pair otherwise. */
  datatype TemplateOut = Bare(list: seq<string>) | Pair(template: seq<string>, params: seq<Param>)

  /** A template under construction: its tokens and its parameters. */
  datatype Part = Part(tokens: seq<string>, params: seq<Param>)

  function Join2(a: Part, b: Part): Part {
    Part(a.tokens + b.tokens, a.params + b.params)
  }

  /** The suffix `s[i..]` as one `'*'` and one joined parameter starting at
      `pos`, or nothing when the suffix is empty. */
  function Trailing(s: seq<string>, i: nat, pos: nat): Part
    requires i <= |s|
  {
    if i < |s| then
      var t := JoinSpace(s[i..]);
      Part([Wildcard], [Param(pos, pos + |t|, t)])
    else Part([], [])
  }

  // ---------------------------------------------------------------------
  // get_template

  /** The walk of `get_template` from token `i` of `s`, with `lcs[p..]` still
      to be matched: a token equal to the next LCS token is kept and the LCS
      advances, any other becomes `'*'` and a parameter; once the LCS runs
      out the rest of `s` is one trailing `'*'`. */
  function TemplateFrom(lcs: seq<string>, s: seq<string>, p: nat, i: nat): Part
    requires p < |lcs| && i <= |s|
    decreases |s| - i
  {
    if i == |s| then Part([], [])
    else
      var tok := s[i];
      var head :=
        if tok == lcs[p] then Part([tok], [])
        else Part([Wildcard], [Param(SpanStart(s, i), SpanStart(s, i) + |tok|, tok)]);
      var p' := if tok == lcs[p] then p + 1 else p;
      if p' == |lcs| then Join2(head, Trailing(s, i + 1, SpanStart(s, i + 1)))
      else Join2(head, TemplateFrom(lcs, s, p', i + 1))
  }

  /** `get_template(lcs, seq)` as a function. */
  function GetTemplateSpec(lcs: seq<string>, s: seq<string>): TemplateOut {
    if lcs == [] then Bare([])
    else var r := TemplateFrom(lcs, s, 0, 0); Pair(r.tokens, r.params)
  }

  /** What is left of the walk with `lcs[p..]` to match from token `i`:
      the trailing part once the LCS has run out. */
  function Remaining(lcs: seq<string>, s: seq<string>, p: nat, i: nat): Part
    requires p <= |lcs| && i <= |s|
  {
    if p == |lcs| then Trailing(s, i, SpanStart(s, i)) else TemplateFrom(lcs, s, p, i)
  }

  /** One step of the walk. */
  lemma TemplateStep(lcs: seq<string>, s: seq<string>, p: nat, i: nat, acc: Part)
    requires p < |lcs| && i < |s|
    ensures s[i] == lcs[p] ==>
      Join2(acc, Remaining(lcs, s, p, i)) == Join2(Part(acc.tokens + [s[i]], acc.params), Remaining(lcs, s, p + 1, i + 1))
    ensures s[i] != lcs[p] ==>
      Join2(acc, Remaining(lcs, s, p, i))
      == Join2(Part(acc.tokens + [Wildcard], acc.params + [Param(SpanStart(s, i), SpanStart(s, i) + |s[i]|, s[i])]),
               Remaining(lcs, s, p, i + 1))
  {
    var r := TemplateFrom(lcs, s, p, i);
    if s[i] == lcs[p] {
      var rest := Remaining(lcs, s, p + 1, i + 1);
      assert r == Join2(Part([s[i]], []), rest);
      assert acc.tokens + r.tokens == (acc.tokens + [s[i]]) + rest.tokens;
      assert acc.params + r.params == acc.params + rest.params;
    } else {
      var rest := Remaining(lcs, s, p, i + 1);
      var q := Param(SpanStart(s, i), SpanStart(s, i) + |s[i]|, s[i]);
      assert r == Join2(Part([Wildcard], [q]), rest);
      assert acc.tokens + r.tokens == (acc.tokens + [Wildcard]) + rest.tokens;
      assert acc.params + r.params == (acc.params + [q]) + rest.params;
    }
  }

  /** `get_template`, with its loop and its early `break`. */
  method GetTemplate(lcs: seq<string>, s: seq<string>) returns (r: TemplateOut)
    ensures r == GetTemplateSpec(lcs, s)
  {
    if |lcs| == 0 {
      return Bare([]);
    }
    ghost var full := TemplateFrom(lcs, s, 0, 0);
    var template: seq<string> := [];
    var params: seq<Param> := [];
    var p, i, pos := 0, 0, 0;
    while i < |s| && p < |lcs|
      invariant 0 <= i <= |s| && 0 <= p <= |lcs| && pos == SpanStart(s, i)
      invariant full == Join2(Part(template, params), Remaining(lcs, s, p, i))
      decreases |s| - i
    {
      TemplateStep(lcs, s, p, i, Part(template, params));
      var tok := s[i];
      i := i + 1;
      if tok == lcs[p] {
        template := template + [tok];
        p := p + 1;
      } else {
        template := template + [Wildcard];
        params := params + [Param(pos, pos + |tok|, tok)];
      }
      pos := pos + |tok| + 1;
    }
    if i < |s| {
      template := template + [Wildcard];
      var t := JoinSpace(s[i..]);
      params := params + [Param(pos, pos + |t|, t)];
    }
    r := Pair(template, params);
  }

  /** The template is no longer than `s`, and each of its tokens is the
      token of `s` at the same place or `'*'`. */
  lemma {:induction false} TemplateShape(lcs: seq<string>, s: seq<string>, p: nat, i: nat)
    requires p < |lcs| && i <= |s|
    ensures |TemplateFrom(lcs, s, p, i).tokens| <= |s| - i
    ensures forall k :: 0 <= k < |TemplateFrom(lcs, s, p, i).tokens| ==>
      TemplateFrom(lcs, s, p, i).tokens[k] in {s[i + k], Wildcard}
    decreases |s| - i
  {
    if i < |s| {
      var p' := if s[i] == lcs[p] then p + 1 else p;
      if p' < |lcs| {
        TemplateShape(lcs, s, p', i + 1);
      }
    }
  }

  /** When the LCS is a subsequence of `s`, as the LCS of `s` with another
      list always is, the tokens the template keeps are those of the LCS:
      everything else became `'*'`. */
  lemma {:induction false} TemplateKeepsLcs(lcs: seq<string>, s: seq<string>, p: nat, i: nat)
    requires p < |lcs| && i <= |s| && IsSubseq(lcs[p..], s[i..])
    ensures Literals(TemplateFrom(lcs, s, p, i).tokens) == Literals(lcs[p..])
    decreases |s| - i
  {
    var x, y := lcs[p..], s[i..];
    assert x != [] && y != [] && x[0] == lcs[p] && y[0] == s[i];
    assert y[1..] == s[i + 1..];
    var r := TemplateFrom(lcs, s, p, i);
    if s[i] == lcs[p] {
      assert x[1..] == lcs[p + 1..];
      var tail := if p + 1 == |lcs| then Trailing(s, i + 1, SpanStart(s, i + 1)) else TemplateFrom(lcs, s, p + 1, i + 1);
      assert r.tokens == [s[i]] + tail.tokens;
      LiteralsConcat([s[i]], tail.tokens);
      LiteralsConcat([lcs[p]], lcs[p + 1..]);
      assert lcs[p..] == [lcs[p]] + lcs[p + 1..];
      if p + 1 < |lcs| {
        TemplateKeepsLcs(lcs, s, p + 1, i + 1);
      } else {
        assert Literals(tail.tokens) == [];
      }
    } else {
      TemplateKeepsLcs(lcs, s, p, i + 1);
      assert r.tokens == [Wildcard] + TemplateFrom(lcs, s, p, i + 1).tokens;
      LiteralsConcat([Wildcard], TemplateFrom(lcs, s, p, i + 1).tokens);
    }
  }

  lemma {:induction false} LiteralsConcat(a: seq<string>, b: seq<string>)
    ensures Literals(a + b) == Literals(a) + Literals(b)
  {
    if a == [] {
      assert a + b == b;
    } else {
      assert (a + b)[1..] == a[1..] + b;
      LiteralsConcat(a[1..], b);
    }
  }

  /** A parameter record locates its value in `' '.join(s)`. */
  predicate Located(s: seq<string>, q: Param) {
    q.end == q.start + |q.value| && q.end <= |JoinSpace(s)| && JoinSpace(s)[q.start..q.end] == q.value
  }

  lemma TrailingLocated(s: seq<string>, i: nat)
    requires 0 < i <= |s|
    ensures forall q :: q in Trailing(s, i, SpanStart(s, i)).params ==> Located(s, q)
  {
    if i < |s| {
      JoinAfter(s, i);
    }
  }

  /** Every parameter `get_template` records is the text at its offsets in
      `' '.join(seq)`. */
  lemma {:induction false} TemplateParamsLocated(lcs: seq<string>, s: seq<string>, p: nat, i: nat)
    requires p < |lcs| && i <= |s|
    ensures forall q :: q in TemplateFrom(lcs, s, p, i).params ==> Located(s, q)
    decreases |s| - i
  {
    if i < |s| {
      SpanInJoin(s, i);
      var p' := if s[i] == lcs[p] then p + 1 else p;
      if p' == |lcs| {
        TrailingLocated(s, i + 1);
      } else {
        TemplateParamsLocated(lcs, s, p', i + 1);
      }
    }
  }

  // ---------------------------------------------------------------------
  // get_parameters

  /** The walk of `get_parameters` from token `i`: the template is consumed
      in lockstep with `s`, a token that differs from the template token at
      its place is a parameter, the offset advances by the length of the
      ORIGINAL token at that place plus one, and once the template runs out
      the rest of `s` is one joined parameter. An original list shorter
      than the walk raises IndexError. */
  function ParamsFrom(t: seq<string>, s: seq<string>, orig: seq<string>, i: nat, pos: nat): Result<seq<Param>>
    requires i < |t|
    decreases |s| - i
  {
    if i >= |s| then Ok([])
    else
      var tok := s[i];
      var head := LockstepParam(t, s, i, pos);
      if i >= |orig| then Err(IndexError)
      else
        var pos' := pos + |orig[i]| + 1;
        if i + 1 == |t| then Ok(head + Trailing(s, i + 1, pos').params)
        else Prepend(head, ParamsFrom(t, s, orig, i + 1, pos'))
  }

  /** `get_parameters(lcs, seq, original_seq)` as a function. */
  function GetParametersSpec(t: seq<string>, s: seq<string>, orig: seq<string>): Result<seq<Param>> {
    if t == [] then Ok([]) else ParamsFrom(t, s, orig, 0, 0)
  }

  /** The records found so far in front of those of the rest of the walk. */
  function Prepend(done: seq<Param>, r: Result<seq<Param>>): Result<seq<Param>> {
    match r
    case Err(e) => Err(e)
    case Ok(rest) => Ok(done + rest)
  }

  /** The parameter token `i` contributes to the lockstep walk. */
  function LockstepParam(t: seq<string>, s: seq<string>, i: nat, pos: nat): seq<Param>
    requires i < |t| && i < |s|
  {
    if s[i] != t[i] then [Param(pos, pos + |s[i]|, s[i])] else []
  }

  /** One step of the walk. */
  lemma ParamsStep(t: seq<string>, s: seq<string>, orig: seq<string>, i: nat, pos: nat, done: seq<Param>)
    requires i < |t| && i < |s|
    ensures i >= |orig| ==> Prepend(done, ParamsFrom(t, s, orig, i, pos)) == Err(IndexError)
    ensures i < |orig| && i + 1 == |t| ==>
      Prepend(done, ParamsFrom(t, s, orig, i, pos))
      == Ok(done + LockstepParam(t, s, i, pos) + Trailing(s, i + 1, pos + |orig[i]| + 1).params)
    ensures i < |orig| && i + 1 < |t| ==>
      Prepend(done, ParamsFrom(t, s, orig, i, pos))
      == Prepend(done + LockstepParam(t, s, i, pos), ParamsFrom(t, s, orig, i + 1, pos + |orig[i]| + 1))
  {
    if i < |orig| {
      var head := LockstepParam(t, s, i, pos);
      var tail := Trailing(s, i + 1, pos + |orig[i]| + 1).params;
      assert done + (head + tail) == done + head + tail;
      if i + 1 < |t| {
        match ParamsFrom(t, s, orig, i + 1, pos + |orig[i]| + 1)
        case Err(e) =>
        case Ok(rest) =>
          assert done + (head + rest) == done + head + rest;
      }
    }
  }

  lemma PrependNil(r: Result<seq<Param>>)
    ensures Prepend([], r) == r
  {
    if r.Ok? {
      assert [] + r.value == r.value;
    }
  }

  /** `get_parameters`, with its loop and its early `break`. */
  method GetParameters(t: seq<string>, s: seq<string>, orig: seq<string>) returns (r: Result<seq<Param>>)
    ensures r == GetParametersSpec(t, s, orig)
  {
    if |t| == 0 {
      return Ok([]);
    }
    var params: seq<Param> := [];
    var i: nat, pos: nat := 0, 0;
    PrependNil(ParamsFrom(t, s, orig, 0, 0));
    while i < |s| && i < |t|
      invariant 0 <= i <= |s| && i <= |t|
      invariant i < |t| ==> GetParametersSpec(t, s, orig) == Prepend(params, ParamsFrom(t, s, orig, i, pos))
      invariant i == |t| ==> GetParametersSpec(t, s, orig) == Ok(params + Trailing(s, i, pos).params)
      decreases |s| - i
    {
      ParamsStep(t, s, orig, i, pos, params);
      ghost var before := params;
      var tok := s[i];
      i := i + 1;
      if tok != t[i - 1] {
        params := params + [Param(pos, pos + |tok|, tok)];
      } else {
        assert params == before + [];
      }
      assert params == before + LockstepParam(t, s, i - 1, pos);
      if i - 1 >= |orig| {
        return Err(IndexError);
      }
      pos := pos + |orig[i - 1]| + 1;
    }
    if i < |s| {
      var rest := JoinSpace(s[i..]);
      params := params + [Param(pos, pos + |rest|, rest)];
    } else {
      assert params + [] == params;
    }
    r := Ok(params);
  }

  function Min(x: nat, y: nat): nat {
    if x <= y then x else y
  }

  lemma {:induction false} ParamsFromFails(t: seq<string>, s: seq<string>, orig: seq<string>, i: nat, pos: nat)
    requires i < |t| && i <= |orig|
    ensures ParamsFrom(t, s, orig, i, pos).Err? <==> |orig| < Min(|s|, |t|)
    ensures ParamsFrom(t, s, orig, i, pos).Err? ==> ParamsFrom(t, s, orig, i, pos).error == IndexError
    decreases |s| - i
  {
    if i < |s| && i < |orig| && i + 1 < |t| {
      ParamsFromFails(t, s, orig, i + 1, pos + |orig[i]| + 1);
    }
  }

  /** `get_parameters` raises (IndexError) exactly when the original token
      list is shorter than the part of the walk that reads it: fewer
      original tokens than both `seq` and the template have. */
  lemma GetParametersFails(t: seq<string>, s: seq<string>, orig: seq<string>)
    ensures GetParametersSpec(t, s, orig).Err? <==> t != [] && |orig| < Min(|s|, |t|)
    ensures GetParametersSpec(t, s, orig).Err? ==> GetParametersSpec(t, s, orig).error == IndexError
  {
    if t != [] {
      ParamsFromFails(t, s, orig, 0, 0);
    }
  }

  /** When the original tokens are the tokens themselves, every parameter
      `get_parameters` records is the text at its offsets in `' '.join(seq)`,
      and each one from the lockstep walk is a token that differs from the
      template token at its place. */
  lemma {:induction false} ParamsFromLocated(t: seq<string>, s: seq<string>, i: nat)
    requires i < |t| && i <= |s|
    ensures ParamsFrom(t, s, s, i, SpanStart(s, i)).Ok?
    ensures forall q :: q in ParamsFrom(t, s, s, i, SpanStart(s, i)).value ==> Located(s, q)
    decreases |s| - i
  {
    if i < |s| {
      SpanInJoin(s, i);
      assert SpanStart(s, i + 1) == SpanStart(s, i) + |s[i]| + 1;
      if i + 1 == |t| {
        TrailingLocated(s, i + 1);
      } else {
        ParamsFromLocated(t, s, i + 1);
      }
    }
  }

  lemma GetParametersLocated(t: seq<string>, s: seq<string>)
    ensures GetParametersSpec(t, s, s).Ok?
    ensures forall q :: q in GetParametersSpec(t, s, s).value ==> Located(s, q)
  {
    if t != [] {
      ParamsFromLocated(t, s, 0);
    }
  }
}
