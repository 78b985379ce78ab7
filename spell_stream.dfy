/** The online Spell store of `src/pyspell/spell_stream.py`: `LCSObject`
    (one template with its line ids and wildcard positions) and `LCSMap` (the
    append-only list of them with its line and object counters).

    Every loop of the source is a method proved equal to a recursive
    function that follows the same scan; the properties the parser relies on
    are lemmas about those functions. */
module SpellStream {
  import opened Wrappers
  import opened Tokens

  // ---------------------------------------------------------------------
  // The greedy forward scan shared by `getlcs` and `insert`.

  /** The first index `j >= from` with `s[j] == tok`: what the inner
      `for j in range(lastmatch + 1, len(seq))` loops look for. */
  function FindFrom(tok: string, s: seq<string>, from: nat): (r: Option<nat>)
    ensures r.Some? ==> from <= r.value < |s| && s[r.value] == tok
    decreases |s| - from
  {
    if from >= |s| then None
    else if s[from] == tok then Some(from)
    else FindFrom(tok, s, from + 1)
  }

  /** The index found is the first occurrence; `None` means none at all. */
  lemma {:induction false} FindFromFirst(tok: string, s: seq<string>, from: nat)
    ensures FindFrom(tok, s, from).Some? ==> forall j :: from <= j < FindFrom(tok, s, from).value ==> s[j] != tok
    ensures FindFrom(tok, s, from).None? ==> forall j :: from <= j < |s| ==> s[j] != tok
    decreases |s| - from
  {
    if from < |s| && s[from] != tok {
      FindFromFirst(tok, s, from + 1);
    }
  }

  /** The pairs (template index, input index) the greedy scan matches,
      starting at template position `i` with the input scanned from `next`;
      positions listed in `pos` are skipped. */
  function Align(t: seq<string>, pos: seq<nat>, s: seq<string>, i: nat, next: nat): seq<(nat, nat)>
    decreases |t| - i
  {
    if i >= |t| then []
    else if i in pos then Align(t, pos, s, i + 1, next)
    else match FindFrom(t[i], s, next)
      case None => Align(t, pos, s, i + 1, next)
      case Some(j) => [(i, j)] + Align(t, pos, s, i + 1, j + 1)
  }

  /** What `LCSObject.getlcs` counts. */
  function GreedyCount(t: seq<string>, pos: seq<nat>, s: seq<string>): nat {
    |Align(t, pos, s, 0, 0)|
  }

  /** The number of template positions from `i` on that are not wildcard
      slots. */
  function FreeSlots(t: seq<string>, pos: seq<nat>, i: nat): nat
    decreases |t| - i
  {
    if i >= |t| then 0 else (if i in pos then 0 else 1) + FreeSlots(t, pos, i + 1)
  }

  /** A matched pair joins equal tokens, at a template position from `i` on
      that is not a wildcard slot and an input position from `next` on. */
  predicate PairOk(t: seq<string>, pos: seq<nat>, s: seq<string>, i: nat, next: nat, p: (nat, nat)) {
    i <= p.0 < |t| && p.0 !in pos && next <= p.1 < |s| && t[p.0] == s[p.1]
  }

  /** Every pair of `al` is a matched pair from `(i, next)` on, and both
      indices strictly increase along `al`. */
  predicate AlignOk(t: seq<string>, pos: seq<nat>, s: seq<string>, i: nat, next: nat, al: seq<(nat, nat)>) {
    (forall k :: 0 <= k < |al| ==> PairOk(t, pos, s, i, next, al[k])) &&
    (forall k :: 0 < k < |al| ==> al[k - 1].0 < al[k].0 && al[k - 1].1 < al[k].1)
  }

  /** Every matched pair joins equal tokens at a non-wildcard position, and
      both indices strictly increase. */
  lemma {:induction false} AlignSound(t: seq<string>, pos: seq<nat>, s: seq<string>, i: nat, next: nat)
    ensures AlignOk(t, pos, s, i, next, Align(t, pos, s, i, next))
    decreases |t| - i
  {
    if i < |t| {
      if i in pos {
        AlignSound(t, pos, s, i + 1, next);
        AlignOkFrom(t, pos, s, i, next, Align(t, pos, s, i + 1, next));
      } else {
        match FindFrom(t[i], s, next)
        case None =>
          AlignSound(t, pos, s, i + 1, next);
          AlignOkFrom(t, pos, s, i, next, Align(t, pos, s, i + 1, next));
        case Some(j) =>
          AlignSound(t, pos, s, i + 1, j + 1);
          AlignOkCons(t, pos, s, i, next, j, Align(t, pos, s, i + 1, j + 1));
      }
    }
  }

  lemma AlignOkFrom(t: seq<string>, pos: seq<nat>, s: seq<string>, i: nat, next: nat, al: seq<(nat, nat)>)
    requires AlignOk(t, pos, s, i + 1, next, al)
    ensures AlignOk(t, pos, s, i, next, al)
  {
    assert forall k :: 0 <= k < |al| ==> PairOk(t, pos, s, i + 1, next, al[k]);
  }

  lemma AlignOkCons(t: seq<string>, pos: seq<nat>, s: seq<string>, i: nat, next: nat, j: nat, rest: seq<(nat, nat)>)
    requires i < |t| && i !in pos && next <= j < |s| && t[i] == s[j]
    requires AlignOk(t, pos, s, i + 1, j + 1, rest)
    ensures AlignOk(t, pos, s, i, next, [(i, j)] + rest)
  {
    var al := [(i, j)] + rest;
    forall k | 0 <= k < |al|
      ensures PairOk(t, pos, s, i, next, al[k])
      ensures k > 0 ==> al[k - 1].0 < al[k].0 && al[k - 1].1 < al[k].1
    {
      if k > 0 {
        assert al[k] == rest[k - 1];
        assert PairOk(t, pos, s, i + 1, j + 1, rest[k - 1]);
        if k > 1 {
          assert al[k - 1] == rest[k - 2];
        }
      }
    }
  }

  /** The greedy count matches at most one input token per non-wildcard
      template position, and each input token at most once. */
  lemma {:induction false} AlignBounds(t: seq<string>, pos: seq<nat>, s: seq<string>, i: nat, next: nat)
    ensures |Align(t, pos, s, i, next)| <= FreeSlots(t, pos, i)
    ensures next <= |s| ==> |Align(t, pos, s, i, next)| <= |s| - next
    decreases |t| - i
  {
    if i < |t| {
      if i in pos {
        AlignBounds(t, pos, s, i + 1, next);
      } else {
        match FindFrom(t[i], s, next)
        case None => AlignBounds(t, pos, s, i + 1, next);
        case Some(j) => AlignBounds(t, pos, s, i + 1, j + 1);
      }
    }
  }

  /** `getlcs`: the count is at most the number of literal positions of the
      template and at most the input length. */
  lemma GreedyCountBounds(t: seq<string>, pos: seq<nat>, s: seq<string>)
    ensures GreedyCount(t, pos, s) <= FreeSlots(t, pos, 0)
    ensures GreedyCount(t, pos, s) <= |s|
  {
    AlignBounds(t, pos, s, 0, 0);
  }

  // ---------------------------------------------------------------------
  // The template merge of `LCSObject.insert`.

  /** The tokens the merge loop appends to `temp`, from template position
      `i` with the input scanned from `next`; `placeholder` is true when the
      last thing appended was a wildcard. */
  function MergeOut(t: seq<string>, pos: seq<nat>, s: seq<string>, i: nat, next: nat, placeholder: bool): seq<string>
    decreases |t| - i
  {
    if i >= |t| then []
    else if i in pos then
      (if placeholder then [] else [Wildcard]) + MergeOut(t, pos, s, i + 1, next, true)
    else if next >= |s| then
      // empty scan range: the literal is dropped and nothing is appended
      MergeOut(t, pos, s, i + 1, next, placeholder)
    else match FindFrom(t[i], s, next)
      case Some(j) =>
        (if j > next && !placeholder then [Wildcard] else []) + [t[i]] + MergeOut(t, pos, s, i + 1, j + 1, false)
      case None =>
        (if placeholder then [] else [Wildcard]) + MergeOut(t, pos, s, i + 1, next, true)
  }

  /** `temp`: each appended token followed by one space. */
  function Spaced(out: seq<string>): string {
    if out == [] then "" else out[0] + " " + Spaced(out[1..])
  }

  /** The new template: `re.split(r'\s+', temp.strip())`. */
  function Merged(t: seq<string>, pos: seq<nat>, s: seq<string>): seq<string> {
    Tokenize(Spaced(MergeOut(t, pos, s, 0, 0, false)))
  }

  /** The ascending template positions from `i` on that hold `'*'`
      (`_getpos`). */
  function WildPositions(t: seq<string>, i: nat): (r: seq<nat>)
    decreases |t| - i
  {
    if i >= |t| then [] else (if t[i] == Wildcard then [i] else []) + WildPositions(t, i + 1)
  }

  /** `_getpos` lists exactly the indices holding `'*'`, in ascending order. */
  lemma {:induction false} WildPositionsExact(t: seq<string>, i: nat)
    ensures forall k :: k in WildPositions(t, i) <==> i <= k < |t| && t[k] == Wildcard
    ensures forall a, b :: 0 <= a < b < |WildPositions(t, i)| ==> WildPositions(t, i)[a] < WildPositions(t, i)[b]
    decreases |t| - i
  {
    if i < |t| {
      WildPositionsExact(t, i + 1);
      var r := WildPositions(t, i + 1);
      var h: seq<nat> := if t[i] == Wildcard then [i] else [];
      var w := WildPositions(t, i);
      assert w == h + r;
      assert forall k :: k in w <==> k in h || k in r;
      forall a, b | 0 <= a < b < |w|
        ensures w[a] < w[b]
      {
        if h != [] && a == 0 {
          assert w[b] == r[b - 1] && r[b - 1] in r;
        } else {
          assert w[a] == r[a - |h|] && w[b] == r[b - |h|];
        }
      }
    }
  }

  /** No two adjacent tokens are both `'*'`. */
  predicate NoDoubleWildcard(ts: seq<string>) {
    forall k :: 0 < k < |ts| ==> !(ts[k - 1] == Wildcard && ts[k] == Wildcard)
  }

  /** The merge never appends two wildcards in a row when no literal
      template position holds `'*'` (true of every template that has been
      merged once, since `_pos` then lists every `'*'`). */
  lemma {:induction false} MergeOutNoDoubleWildcard(t: seq<string>, pos: seq<nat>, s: seq<string>, i: nat, next: nat, placeholder: bool)
    requires forall k :: 0 <= k < |t| && k !in pos ==> t[k] != Wildcard
    ensures NoDoubleWildcard(MergeOut(t, pos, s, i, next, placeholder))
    ensures placeholder && MergeOut(t, pos, s, i, next, placeholder) != [] ==>
      MergeOut(t, pos, s, i, next, placeholder)[0] != Wildcard
    decreases |t| - i
  {
    if i < |t| {
      var m := MergeSpecStep(t, pos, s, i, next, placeholder);
      MergeOutStep(t, pos, s, i, next, placeholder);
      MergeOutNoDoubleWildcard(t, pos, s, i + 1, m.1, m.2);
      MergeSpecStepShape(t, pos, s, i, next, placeholder);
      NoDoubleConcat(m.0, MergeOut(t, pos, s, i + 1, m.1, m.2));
    }
  }

  /** A merge step appends no two wildcards, ends with a literal unless it
      sets `placeholder`, and starts with a literal when `placeholder` was
      already set. */
  lemma MergeSpecStepShape(t: seq<string>, pos: seq<nat>, s: seq<string>, i: nat, next: nat, ph: bool)
    requires i < |t| && (i !in pos ==> t[i] != Wildcard)
    ensures var m := MergeSpecStep(t, pos, s, i, next, ph);
      NoDoubleWildcard(m.0) &&
      (m.0 != [] && m.0[|m.0| - 1] == Wildcard ==> m.2) &&
      (ph && m.0 != [] ==> m.0[0] != Wildcard) &&
      (ph && m.0 == [] ==> m.2)
  {
    if i !in pos && next < |s| {
      match FindFrom(t[i], s, next)
      case None =>
      case Some(j) =>
        var w: seq<string> := if j > next && !ph then [Wildcard] else [];
        assert MergeSpecStep(t, pos, s, i, next, ph).0 == w + [t[i]];
    }
  }

  lemma NoDoubleConcat(a: seq<string>, b: seq<string>)
    requires NoDoubleWildcard(a) && NoDoubleWildcard(b)
    requires a != [] && b != [] ==> !(a[|a| - 1] == Wildcard && b[0] == Wildcard)
    ensures NoDoubleWildcard(a + b)
  {
    var c := a + b;
    forall k | 0 < k < |c|
      ensures !(c[k - 1] == Wildcard && c[k] == Wildcard)
    {
      if k < |a| {
        assert c[k - 1] == a[k - 1] && c[k] == a[k];
      } else if k == |a| {
        assert c[k - 1] == a[|a| - 1] && c[k] == b[0];
      } else {
        assert c[k - 1] == b[k - 1 - |a|] && c[k] == b[k - |a|];
      }
    }
  }

  /** The literal tokens the merge keeps, in order. */
  function Kept(t: seq<string>, pos: seq<nat>, s: seq<string>, i: nat, next: nat): seq<string>
    decreases |t| - i
  {
    if i >= |t| then []
    else if i in pos then Kept(t, pos, s, i + 1, next)
    else match FindFrom(t[i], s, next)
      case None => Kept(t, pos, s, i + 1, next)
      case Some(j) => [t[i]] + Kept(t, pos, s, i + 1, j + 1)
  }

  /** Apart from wildcards, the merge appends exactly the kept literals. */
  lemma {:induction false} MergeOutKept(t: seq<string>, pos: seq<nat>, s: seq<string>, i: nat, next: nat, placeholder: bool)
    ensures Literals(MergeOut(t, pos, s, i, next, placeholder)) == Literals(Kept(t, pos, s, i, next))
    decreases |t| - i
  {
    if i < |t| {
      var m := MergeSpecStep(t, pos, s, i, next, placeholder);
      var rest := MergeOut(t, pos, s, i + 1, m.1, m.2);
      MergeStep(t, pos, s, i, next, placeholder, []);
      assert [] + m.0 == m.0 && [] + MergeOut(t, pos, s, i, next, placeholder) == MergeOut(t, pos, s, i, next, placeholder);
      MergeOutKept(t, pos, s, i + 1, m.1, m.2);
      LiteralsAppend(m.0, rest);
      KeptStep(t, pos, s, i, next, placeholder);
    }
  }

  /** One step of `Kept`, in terms of the merge step at the same position. */
  lemma KeptStep(t: seq<string>, pos: seq<nat>, s: seq<string>, i: nat, next: nat, ph: bool)
    requires i < |t|
    ensures var m := MergeSpecStep(t, pos, s, i, next, ph);
      Literals(Kept(t, pos, s, i, next)) == Literals(m.0) + Literals(Kept(t, pos, s, i + 1, m.1))
  {
    var m := MergeSpecStep(t, pos, s, i, next, ph);
    if i in pos {
      assert Kept(t, pos, s, i, next) == Kept(t, pos, s, i + 1, next);
      assert m.0 == [] || m.0 == [Wildcard];
    } else if next >= |s| {
      assert FindFrom(t[i], s, next) == None;
      assert Kept(t, pos, s, i, next) == Kept(t, pos, s, i + 1, next);
      assert m == ([], next, ph);
    } else {
      match FindFrom(t[i], s, next)
      case None =>
        assert Kept(t, pos, s, i, next) == Kept(t, pos, s, i + 1, next);
        assert m.0 == [] || m.0 == [Wildcard];
      case Some(j) =>
        var w: seq<string> := if j > next && !ph then [Wildcard] else [];
        assert m == (w + [t[i]], j + 1, false);
        assert Kept(t, pos, s, i, next) == [t[i]] + Kept(t, pos, s, i + 1, j + 1);
        LiteralsAppend(w, [t[i]]);
        assert Literals(w) == [];
        LiteralsAppend([t[i]], Kept(t, pos, s, i + 1, j + 1));
    }
  }

  /** Every token the merge appends is `'*'` or a token of both the template
      and the input. */
  lemma {:induction false} MergeOutTokens(t: seq<string>, pos: seq<nat>, s: seq<string>, i: nat, next: nat, placeholder: bool)
    ensures forall w :: w in MergeOut(t, pos, s, i, next, placeholder) ==> w == Wildcard || (w in t && w in s)
    decreases |t| - i
  {
    if i < |t| {
      if i in pos {
        MergeOutTokens(t, pos, s, i + 1, next, true);
      } else if next >= |s| {
        MergeOutTokens(t, pos, s, i + 1, next, placeholder);
      } else {
        match FindFrom(t[i], s, next)
        case Some(j) => MergeOutTokens(t, pos, s, i + 1, j + 1, false);
        case None => MergeOutTokens(t, pos, s, i + 1, next, true);
      }
    }
  }

  /** With the input exhausted no literal is kept. */
  lemma {:induction false} KeptPastEnd(t: seq<string>, pos: seq<nat>, s: seq<string>, i: nat, next: nat)
    requires next >= |s|
    ensures Kept(t, pos, s, i, next) == []
    decreases |t| - i
  {
    if i < |t| {
      KeptPastEnd(t, pos, s, i + 1, next);
    }
  }

  /** With the input exhausted the scan range of every literal is empty:
      literals are dropped without a `'*'`, and only a wildcard position
      can still append one `'*'`, and only when `placeholder` is unset. */
  lemma {:induction false} MergeOutPastEnd(t: seq<string>, pos: seq<nat>, s: seq<string>, i: nat, next: nat, placeholder: bool)
    requires next >= |s|
    ensures MergeOut(t, pos, s, i, next, placeholder) ==
      if !placeholder && exists k :: i <= k < |t| && k in pos then [Wildcard] else []
    decreases |t| - i
  {
    if i < |t| {
      MergeOutPastEnd(t, pos, s, i + 1, next, placeholder);
      MergeOutPastEnd(t, pos, s, i + 1, next, true);
      if i !in pos {
        assert (exists k :: i <= k < |t| && k in pos) <==> (exists k :: i + 1 <= k < |t| && k in pos);
      }
    }
  }

  lemma {:induction false} LiteralsAppend(a: seq<string>, b: seq<string>)
    ensures Literals(a + b) == Literals(a) + Literals(b)
  {
    if a != [] {
      assert (a + b)[1..] == a[1..] + b;
      LiteralsAppend(a[1..], b);
    } else {
      assert a + b == b;
    }
  }

  /** The kept literals are a subsequence of the input and of the old
      template's literal positions. */
  lemma {:induction false} KeptSubseq(t: seq<string>, pos: seq<nat>, s: seq<string>, i: nat, next: nat)
    requires i <= |t| && next <= |s|
    ensures IsSubseq(Kept(t, pos, s, i, next), s[next..])
    ensures IsSubseq(Kept(t, pos, s, i, next), t[i..])
    decreases |t| - i
  {
    if i < |t| {
      assert t[i..] == [t[i]] + t[i + 1..];
      if i in pos {
        KeptSubseq(t, pos, s, i + 1, next);
        SubseqConsLeft(Kept(t, pos, s, i + 1, next), t[i + 1..], t[i]);
      } else {
        match FindFrom(t[i], s, next)
        case None =>
          KeptSubseq(t, pos, s, i + 1, next);
          SubseqConsLeft(Kept(t, pos, s, i + 1, next), t[i + 1..], t[i]);
        case Some(j) =>
          var k := Kept(t, pos, s, i + 1, j + 1);
          KeptSubseq(t, pos, s, i + 1, j + 1);
          assert ([t[i]] + k)[1..] == k;
          assert s[j..] == [s[j]] + s[j + 1..];
          SubseqSkip([t[i]] + k, s, next, j);
      }
    }
  }

  lemma {:induction false} SubseqConsLeft(x: seq<string>, y: seq<string>, v: string)
    requires IsSubseq(x, y)
    ensures IsSubseq(x, [v] + y)
    decreases |y|, 1
  {
    assert ([v] + y)[1..] == y;
    if x != [] && x[0] == v {
      SubseqDropHead(x, y);
    }
  }

  lemma {:induction false} SubseqDropHead(x: seq<string>, y: seq<string>)
    requires x != [] && IsSubseq(x, y)
    ensures IsSubseq(x[1..], y)
    decreases |y|, 0
  {
    if x[0] == y[0] {
      assert y == [y[0]] + y[1..];
      SubseqConsLeft(x[1..], y[1..], y[0]);
    } else {
      SubseqDropHead(x, y[1..]);
      assert y == [y[0]] + y[1..];
      SubseqConsLeft(x[1..], y[1..], y[0]);
    }
  }

  /** A subsequence of `s[j..]` is one of `s[next..]` for `next <= j`. */
  lemma {:induction false} SubseqSkip(x: seq<string>, s: seq<string>, next: nat, j: nat)
    requires next <= j <= |s| && IsSubseq(x, s[j..])
    ensures IsSubseq(x, s[next..])
    decreases j - next
  {
    if next < j {
      SubseqSkip(x, s, next + 1, j);
      assert s[next..] == [s[next]] + s[next + 1..];
      SubseqConsLeft(x, s[next + 1..], s[next]);
    }
  }

  lemma {:induction false} SubseqOfLiterals(x: seq<string>)
    ensures IsSubseq(Literals(x), x)
  {
    if x != [] {
      SubseqOfLiterals(x[1..]);
      assert x == [x[0]] + x[1..];
      if x[0] == Wildcard {
        assert Literals(x) == Literals(x[1..]);
        SubseqConsLeft(Literals(x[1..]), x[1..], x[0]);
      } else {
        assert Literals(x) == [x[0]] + Literals(x[1..]);
      }
    }
  }

  lemma {:induction false} SubseqTrans(x: seq<string>, y: seq<string>, z: seq<string>)
    requires IsSubseq(x, y) && IsSubseq(y, z)
    ensures IsSubseq(x, z)
    decreases |z|
  {
    if x != [] {
      if y[0] == z[0] {
        if x[0] == y[0] {
          SubseqTrans(x[1..], y[1..], z[1..]);
        } else {
          SubseqTrans(x, y[1..], z[1..]);
        }
      } else {
        SubseqTrans(x, y, z[1..]);
        if x[0] == z[0] {
          SubseqDropHead(x, z[1..]);
        }
      }
    }
  }

  lemma SpacedWords(out: seq<string>)
    requires out != []
    ensures Spaced(out) == JoinSpace(out) + " "
  {
    if |out| > 1 {
      SpacedWords(out[1..]);
    }
  }

  /** The merge appends at least one token to a non-empty template when
      the input is not empty. */
  lemma MergeOutNonEmpty(t: seq<string>, pos: seq<nat>, s: seq<string>)
    requires t != [] && s != []
    ensures MergeOut(t, pos, s, 0, 0, false) != []
  {
    if 0 !in pos {
      match FindFrom(t[0], s, 0)
      case Some(j) =>
      case None =>
    }
  }

  /** `temp.strip()` removes exactly the trailing space, so re-splitting
      gives the appended words back. */
  lemma ResplitSpaced(out: seq<string>)
    requires out != [] && forall k :: 0 <= k < |out| ==> IsWord(out[k])
    ensures Tokenize(Spaced(out)) == out
  {
    SpacedWords(out);
    JoinStartsWithWord(out);
    StripTrailingSpace(JoinSpace(out));
    SplitJoin(out);
  }

  /** The blank template merged with the blank line. */
  lemma BlankMerge(pos: seq<nat>)
    ensures Merged([""], pos, [""]) == MergeOut([""], pos, [""], 0, 0, false)
    ensures MergeOut([""], pos, [""], 0, 0, false) == if 0 in pos then [Wildcard] else [""]
  {
    var out := MergeOut([""], pos, [""], 0, 0, false);
    if 0 in pos {
      assert out == [Wildcard];
      ResplitSpaced(out);
    } else {
      assert FindFrom("", [""], 0) == Some(0);
      assert out == [""];
      assert Spaced(out) == " ";
      assert LStrip(" ") == "";
      assert Strip(" ") == "";
    }
  }

  /** On tokenizer output the re-split template is exactly what the merge
      appended, and is tokenizer output again. */
  lemma MergedIsOut(t: seq<string>, pos: seq<nat>, s: seq<string>)
    requires IsTokens(t) && IsTokens(s)
    ensures Merged(t, pos, s) == MergeOut(t, pos, s, 0, 0, false)
    ensures IsTokens(Merged(t, pos, s))
  {
    var out := MergeOut(t, pos, s, 0, 0, false);
    MergeOutTokens(t, pos, s, 0, 0, false);
    MergeOutNonEmpty(t, pos, s);
    if t == [""] && s == [""] {
      BlankMerge(pos);
    } else {
      assert forall k :: 0 <= k < |out| ==> IsWord(out[k]) by {
        forall k | 0 <= k < |out| ensures IsWord(out[k]) {
          assert out[k] in out;
        }
      }
      ResplitSpaced(out);
    }
  }

  /** `insert`: the literals of the new template are a subsequence of both
      the input and the old template, and (once `_pos` lists every `'*'`)
      no two wildcards are adjacent. */
  lemma MergedShape(t: seq<string>, pos: seq<nat>, s: seq<string>)
    requires IsTokens(t) && IsTokens(s)
    ensures IsSubseq(Literals(Merged(t, pos, s)), s)
    ensures IsSubseq(Literals(Merged(t, pos, s)), t)
    ensures (forall k :: 0 <= k < |t| && k !in pos ==> t[k] != Wildcard) ==> NoDoubleWildcard(Merged(t, pos, s))
  {
    MergedIsOut(t, pos, s);
    MergeOutKept(t, pos, s, 0, 0, false);
    var kept := Kept(t, pos, s, 0, 0);
    KeptSubseq(t, pos, s, 0, 0);
    assert s[0..] == s && t[0..] == t;
    SubseqOfLiterals(kept);
    SubseqTrans(Literals(kept), kept, s);
    SubseqTrans(Literals(kept), kept, t);
    if forall k :: 0 <= k < |t| && k !in pos ==> t[k] != Wildcard {
      MergeOutNoDoubleWildcard(t, pos, s, 0, 0, false);
    }
  }

  // ---------------------------------------------------------------------
  // Parameter recovery, `LCSObject.param`.

  /** One recovered slot entry `[j, seq[j], prev, next]`. */
  datatype Entry = Entry(index: nat, token: string, prev: Option<string>, next: Option<string>)

  /** The inner `while j < len(seq)` loop of a wildcard position `i`:
      the entries it appends and the new `j`, `prev_token`,
      `fill_next_token`. */
  function ScanSlot(t: seq<string>, s: seq<string>, i: nat, j: nat, prev: Option<string>, fill: bool)
    : (r: (seq<Entry>, nat, Option<string>, bool))
    requires i < |t|
    ensures j <= r.1 && (j <= |s| ==> r.1 <= |s|)
    decreases |s| - j
  {
    if j >= |s| || (i != |t| - 1 && t[i + 1] == s[j]) then ([], j, prev, fill)
    else
      var rest := ScanSlot(t, s, i, j + 1, None, true);
      ([Entry(j, s[j], prev, None)] + rest.0, rest.1, rest.2, rest.3)
  }

  /** `ret[-1][-1][3] = tok`: the next-token context of the last entry. */
  function SetLastNext(ret: seq<seq<Entry>>, tok: string): seq<seq<Entry>>
    requires ret != [] && ret[|ret| - 1] != []
  {
    var last := ret[|ret| - 1];
    ret[|ret| - 1 := last[|last| - 1 := last[|last| - 1].(next := Some(tok))]]
  }

  /** The `for i in range(len(self._lcsseq))` loop of `param` from template
      position `i`, with `j`, `ret`, `prev_token` and `fill_next_token` as
      the loop has them. A literal that disagrees with its input token
      gives `[]`; reading past the input, or the last slot when it is empty,
      raises `IndexError`. */
  function ParamLoop(t: seq<string>, pos: seq<nat>, s: seq<string>, i: nat, j: nat,
                     ret: seq<seq<Entry>>, prev: Option<string>, fill: bool): Result<seq<seq<Entry>>>
    decreases |t| - i
  {
    if i >= |t| then Ok(if j != |s| then [] else ret)
    else if i in pos then
      var r := ScanSlot(t, s, i, j, prev, fill);
      ParamLoop(t, pos, s, i + 1, r.1, ret + [r.0], r.2, r.3)
    else if j >= |s| then Err(IndexError)
    else if t[i] != s[j] then Ok([])
    else if fill && ret != [] && ret[|ret| - 1] == [] then Err(IndexError)
    else
      var ret' := if fill && ret != [] then SetLastNext(ret, t[i]) else ret;
      ParamLoop(t, pos, s, i + 1, j + 1, ret', Some(t[i]), false)
  }

  function SlotsOf(t: seq<string>, pos: seq<nat>, s: seq<string>): Result<seq<seq<Entry>>> {
    ParamLoop(t, pos, s, 0, 0, [], None, false)
  }

  /** The number of wildcard slots from template position `i` on. */
  function SlotCount(t: seq<string>, pos: seq<nat>, i: nat): nat
    decreases |t| - i
  {
    if i >= |t| then 0 else (if i in pos then 1 else 0) + SlotCount(t, pos, i + 1)
  }

  /** The template from position `i` on with each wildcard slot replaced by
      the tokens of the corresponding recovered slot. */
  function Fill(t: seq<string>, pos: seq<nat>, slots: seq<seq<Entry>>, i: nat): seq<string>
    decreases |t| - i
  {
    if i >= |t| then []
    else if i in pos then
      (if slots == [] then [] else SlotTokens(slots[0])) + Fill(t, pos, if slots == [] then [] else slots[1..], i + 1)
    else [t[i]] + Fill(t, pos, slots, i + 1)
  }

  function SlotTokens(slot: seq<Entry>): seq<string> {
    if slot == [] then [] else [slot[0].token] + SlotTokens(slot[1..])
  }

  /** A slot records each input token it covers with its index, and stops
      where the token after the wildcard appears. */
  lemma {:induction false} ScanSlotEntries(t: seq<string>, s: seq<string>, i: nat, j: nat, prev: Option<string>, fill: bool)
    requires i < |t|
    ensures var r := ScanSlot(t, s, i, j, prev, fill);
      |r.0| == r.1 - j &&
      (forall k :: 0 <= k < |r.0| ==> j + k < |s| && r.0[k].index == j + k && r.0[k].token == s[j + k]) &&
      (r.1 < |s| ==> i + 1 < |t| && t[i + 1] == s[r.1])
    ensures var r := ScanSlot(t, s, i, j, prev, fill);
      (forall k :: 0 <= k < |r.0| ==> r.0[k].next.None? && (k > 0 ==> r.0[k].prev.None?))
      && (r.0 != [] ==> r.0[0].prev == prev && r.2.None? && r.3)
      && (r.0 == [] ==> r.2 == prev && r.3 == fill)
    decreases |s| - j
  {
    if !(j >= |s| || (i != |t| - 1 && t[i + 1] == s[j])) {
      ScanSlotEntries(t, s, i, j + 1, None, true);
    }
  }

  lemma {:induction false} ScanSlotTokens(t: seq<string>, s: seq<string>, i: nat, j: nat, prev: Option<string>, fill: bool)
    requires i < |t| && j <= |s|
    ensures SlotTokens(ScanSlot(t, s, i, j, prev, fill).0) == s[j..ScanSlot(t, s, i, j, prev, fill).1]
    decreases |s| - j
  {
    if !(j >= |s| || (i != |t| - 1 && t[i + 1] == s[j])) {
      ScanSlotTokens(t, s, i, j + 1, None, true);
    }
  }

  lemma SetLastNextTokens(ret: seq<seq<Entry>>, tok: string)
    requires ret != [] && ret[|ret| - 1] != []
    ensures |SetLastNext(ret, tok)| == |ret|
    ensures forall k :: 0 <= k < |ret| ==> SlotTokens(SetLastNext(ret, tok)[k]) == SlotTokens(ret[k])
  {
    var last := ret[|ret| - 1];
    var last' := last[|last| - 1 := last[|last| - 1].(next := Some(tok))];
    TokensOfSameTokens(last, last');
  }

  lemma {:induction false} TokensOfSameTokens(a: seq<Entry>, b: seq<Entry>)
    requires |a| == |b| && forall k :: 0 <= k < |a| ==> a[k].token == b[k].token
    ensures SlotTokens(a) == SlotTokens(b)
  {
    if a != [] {
      TokensOfSameTokens(a[1..], b[1..]);
    }
  }

  /** The invariant of the `param` loop: the slots recovered so far, with
      the template's rest filled by whatever the rest of the loop recovers,
      spell out the input from the point the slots so far cover. */
  lemma {:induction false} ParamLoopFills(t: seq<string>, pos: seq<nat>, s: seq<string>, i: nat, j: nat,
                                          ret: seq<seq<Entry>>, prev: Option<string>, fill: bool)
    requires j <= |s|
    requires ParamLoop(t, pos, s, i, j, ret, prev, fill).Ok?
    requires ParamLoop(t, pos, s, i, j, ret, prev, fill).value != []
    ensures var r := ParamLoop(t, pos, s, i, j, ret, prev, fill).value;
      |r| == |ret| + SlotCount(t, pos, i) &&
      (forall k :: 0 <= k < |ret| ==> SlotTokens(r[k]) == SlotTokens(ret[k])) &&
      Fill(t, pos, r[|ret|..], i) == s[j..]
    decreases |t| - i
  {
    var r := ParamLoop(t, pos, s, i, j, ret, prev, fill).value;
    if i >= |t| {
      assert j == |s|;
    } else if i in pos {
      var sc := ScanSlot(t, s, i, j, prev, fill);
      assert ParamLoop(t, pos, s, i, j, ret, prev, fill) == ParamLoop(t, pos, s, i + 1, sc.1, ret + [sc.0], sc.2, sc.3);
      ParamLoopFills(t, pos, s, i + 1, sc.1, ret + [sc.0], sc.2, sc.3);
      ScanSlotTokens(t, s, i, j, prev, fill);
      SlotsPrefix(r, ret, sc.0);
      assert r[|ret|..][1..] == r[|ret + [sc.0]|..];
      FillsAfterSlot(t, pos, s, i, j, sc.1, r[|ret|..]);
    } else {
      var ret' := if fill && ret != [] then SetLastNext(ret, t[i]) else ret;
      assert ParamLoop(t, pos, s, i, j, ret, prev, fill) == ParamLoop(t, pos, s, i + 1, j + 1, ret', Some(t[i]), false);
      ParamLoopFills(t, pos, s, i + 1, j + 1, ret', Some(t[i]), false);
      if fill && ret != [] {
        SetLastNextTokens(ret, t[i]);
      }
      FillsAfterLiteral(t, pos, s, i, j, ret, ret', r);
    }
  }

  /** One step of `ParamLoopFills` at a wildcard position: the slot's
      tokens stand in for the wildcard. */
  lemma FillsAfterSlot(t: seq<string>, pos: seq<nat>, s: seq<string>, i: nat, j: nat, j1: nat, rest: seq<seq<Entry>>)
    requires i < |t| && i in pos && j <= j1 <= |s|
    requires rest != [] && SlotTokens(rest[0]) == s[j..j1]
    requires Fill(t, pos, rest[1..], i + 1) == s[j1..]
    ensures Fill(t, pos, rest, i) == s[j..]
  {
    assert s[j..] == s[j..j1] + s[j1..];
  }

  lemma SlotsPrefix(r: seq<seq<Entry>>, ret: seq<seq<Entry>>, slot: seq<Entry>)
    requires |r| > |ret|
    requires forall k :: 0 <= k < |ret + [slot]| ==> SlotTokens(r[k]) == SlotTokens((ret + [slot])[k])
    ensures forall k :: 0 <= k < |ret| ==> SlotTokens(r[k]) == SlotTokens(ret[k])
    ensures SlotTokens(r[|ret|]) == SlotTokens(slot)
  {
    var ret1 := ret + [slot];
    assert ret1[|ret|] == slot;
    forall k | 0 <= k < |ret|
      ensures SlotTokens(r[k]) == SlotTokens(ret[k])
    {
      assert ret1[k] == ret[k];
    }
  }

  /** One step of `ParamLoopFills` at a literal position. */
  lemma FillsAfterLiteral(t: seq<string>, pos: seq<nat>, s: seq<string>, i: nat, j: nat,
                          ret: seq<seq<Entry>>, ret': seq<seq<Entry>>, r: seq<seq<Entry>>)
    requires i < |t| && i !in pos && j < |s| && t[i] == s[j]
    requires |ret'| == |ret|
    requires forall k :: 0 <= k < |ret| ==> SlotTokens(ret'[k]) == SlotTokens(ret[k])
    requires |r| == |ret'| + SlotCount(t, pos, i + 1)
    requires forall k :: 0 <= k < |ret'| ==> SlotTokens(r[k]) == SlotTokens(ret'[k])
    requires Fill(t, pos, r[|ret'|..], i + 1) == s[j + 1..]
    ensures |r| == |ret| + SlotCount(t, pos, i)
    ensures forall k :: 0 <= k < |ret| ==> SlotTokens(r[k]) == SlotTokens(ret[k])
    ensures Fill(t, pos, r[|ret|..], i) == s[j..]
  {
    assert s[j..] == [s[j]] + s[j + 1..];
  }

  /** `param` round trip: when the template has a wildcard slot and `param`
      returns a non-empty list, there is one slot list per wildcard position
      and putting each slot's tokens in place of its wildcard gives the
      input back, so every input token is either a literal or in a slot. */
  lemma ParamRoundTrip(t: seq<string>, pos: seq<nat>, s: seq<string>)
    requires SlotsOf(t, pos, s).Ok? && SlotsOf(t, pos, s).value != []
    ensures |SlotsOf(t, pos, s).value| == SlotCount(t, pos, 0)
    ensures Fill(t, pos, SlotsOf(t, pos, s).value, 0) == s
  {
    ParamLoopFills(t, pos, s, 0, 0, [], None, false);
    assert SlotsOf(t, pos, s).value[0..] == SlotsOf(t, pos, s).value;
  }

  // ---------------------------------------------------------------------
  // The object and the map.

  /** `LCSObject`: a template (`_lcsseq`), its wildcard positions (`_pos`),
      the ids of the lines merged into it (`_lineids`) and its id. */
  class LcsObject {
    var lcsseq: seq<string>
    var lineids: seq<int>
    var pos: seq<nat>
    var objid: int

    /** A new object takes the input as its template, with no wildcard
        positions yet (even where the input holds a literal `'*'`). */
    constructor (objid: int, s: seq<string>, lineid: int)
      ensures lcsseq == s && lineids == [lineid] && pos == [] && this.objid == objid
    {
      this.objid := objid;
      lcsseq := s;
      lineids := [lineid];
      pos := [];
    }

    /** `lcsseq()`: the template joined by single spaces; tokenizing it
        gives the template back. */
    function LcsSeq(): (r: string)
      reads this
      ensures IsTokens(lcsseq) ==> Tokenize(r) == lcsseq
    {
      LcsSeqRoundTrip(lcsseq);
      JoinSpace(lcsseq)
    }

    /** `__len__`: the number of tokens of the template, which is the
        number of tokens `lcsseq()` re-tokenises into. */
    function Length(): (r: nat)
      reads this
      ensures IsTokens(lcsseq) ==> r == |Tokenize(LcsSeq())|
    {
      LcsSeqRoundTrip(lcsseq);
      |lcsseq|
    }

    /** The object's fields as a value. */
    function View(): ObjState
      reads this
    {
      ObjState(lcsseq, pos, lineids, objid)
    }

    /** `_ispos`: a linear search of `_pos`. */
    method IsPos(idx: nat) returns (b: bool)
      ensures b <==> idx in pos
    {
      var k := 0;
      while k < |pos|
        invariant 0 <= k <= |pos|
        invariant idx !in pos[..k]
      {
        if pos[k] == idx {
          return true;
        }
        k := k + 1;
      }
      assert pos[..k] == pos;
      return false;
    }

    /** `_getpos` */
    method GetPos() returns (p: seq<nat>)
      ensures p == WildPositions(lcsseq, 0)
    {
      p := [];
      var i := 0;
      while i < |lcsseq|
        invariant 0 <= i <= |lcsseq|
        invariant p + WildPositions(lcsseq, i) == WildPositions(lcsseq, 0)
      {
        if lcsseq[i] == Wildcard {
          p := p + [i];
        }
        i := i + 1;
      }
    }

    /** `getlcs` */
    method GetLcs(s: seq<string>) returns (count: nat)
      ensures count == GreedyCount(lcsseq, pos, s)
    {
      count := 0;
      var lastmatch: int := -1;
      var i := 0;
      while i < |lcsseq|
        invariant 0 <= i <= |lcsseq|
        invariant -1 <= lastmatch < |s|
        invariant count + |Align(lcsseq, pos, s, i, lastmatch + 1)| == GreedyCount(lcsseq, pos, s)
      {
        var skip := IsPos(i);
        if !skip {
          ghost var start := lastmatch + 1;
          var j := lastmatch + 1;
          while j < |s|
            invariant start <= j && (start <= |s| ==> j <= |s|)
            invariant lastmatch == start - 1
            invariant FindFrom(lcsseq[i], s, start) == FindFrom(lcsseq[i], s, j)
          {
            if lcsseq[i] == s[j] {
              lastmatch := j;
              count := count + 1;
              break;
            }
            j := j + 1;
          }
        }
        i := i + 1;
      }
    }

    /** `insert`: records the line id and replaces the template by its merge
        with the input; `_pos` becomes the positions of `'*'` in it. */
    method Insert(s: seq<string>, lineid: int)
      modifies this
      ensures lineids == old(lineids) + [lineid]
      ensures lcsseq == Merged(old(lcsseq), old(pos), s)
      ensures pos == WildPositions(lcsseq, 0)
      ensures objid == old(objid)
    {
      var temp := MergeTemp(s);
      lineids := lineids + [lineid];
      temp := Strip(temp);
      lcsseq := SplitWs(temp);
      var p := GetPos();
      pos := p;
    }

    /** The merge loop of `insert`: the string `temp` it builds, each
        appended token followed by a space. */
    method MergeTemp(s: seq<string>) returns (temp: string)
      ensures temp == Spaced(MergeOut(lcsseq, pos, s, 0, 0, false))
    {
      var t, p := lcsseq, pos;
      temp := "";
      ghost var out: seq<string> := [];
      var lastmatch: int := -1;
      var placeholder := false;
      var i := 0;
      while i < |t|
        invariant 0 <= i <= |t|
        invariant -1 <= lastmatch < |s|
        invariant temp == Spaced(out)
        invariant out + MergeOut(t, p, s, i, lastmatch + 1, placeholder) == MergeOut(t, p, s, 0, 0, false)
      {
        var skip := IsPos(i);
        ghost var m := MergeSpecStep(t, p, s, i, lastmatch + 1, placeholder);
        MergeStep(t, p, s, i, lastmatch + 1, placeholder, out);
        var piece;
        piece, lastmatch, placeholder := MergeAt(t, p, s, i, skip, lastmatch, placeholder);
        temp := temp + piece;
        out := out + m.0;
        i := i + 1;
      }
      assert out == MergeOut(t, p, s, 0, 0, false);
    }

    /** `param` */
    method Param(s: seq<string>) returns (r: Result<seq<seq<Entry>>>)
      ensures r == SlotsOf(lcsseq, pos, s)
    {
      var j: nat := 0;
      var ret: seq<seq<Entry>> := [];
      var prev: Option<string> := None;
      var fill := false;
      var i := 0;
      while i < |lcsseq|
        invariant 0 <= i <= |lcsseq|
        invariant ParamLoop(lcsseq, pos, s, i, j, ret, prev, fill) == SlotsOf(lcsseq, pos, s)
      {
        var skip := IsPos(i);
        if skip {
          var slot;
          slot, j, prev, fill := ScanSlotLoop(lcsseq, s, i, j, prev, fill);
          ret := ret + [slot];
        } else if j >= |s| {
          return Err(IndexError);
        } else if lcsseq[i] != s[j] {
          return Ok([]);
        } else {
          prev := Some(lcsseq[i]);
          if fill {
            if ret != [] {
              if ret[|ret| - 1] == [] {
                return Err(IndexError);
              }
              ret := SetLastNext(ret, lcsseq[i]);
            }
          }
          fill := false;
          j := j + 1;
        }
        i := i + 1;
      }
      if j != |s| {
        return Ok([]);
      }
      return Ok(ret);
    }
  }

  /** The inner `while j < len(seq)` loop of `param` at wildcard position
      `i`. */
  method ScanSlotLoop(t: seq<string>, s: seq<string>, i: nat, j0: nat, prev0: Option<string>, fill0: bool)
    returns (slot: seq<Entry>, j: nat, prev: Option<string>, fill: bool)
    requires i < |t|
    ensures (slot, j, prev, fill) == ScanSlot(t, s, i, j0, prev0, fill0)
  {
    slot, j, prev, fill := [], j0, prev0, fill0;
    assert [] + ScanSlot(t, s, i, j0, prev0, fill0).0 == ScanSlot(t, s, i, j0, prev0, fill0).0;
    while j < |s|
      invariant j0 <= j
      invariant ScanSlot(t, s, i, j0, prev0, fill0) == Prepend(slot, ScanSlot(t, s, i, j, prev, fill))
      decreases |s| - j
    {
      if i != |t| - 1 && t[i + 1] == s[j] {
        break;
      }
      ghost var rest := ScanSlot(t, s, i, j + 1, None, true);
      assert ScanSlot(t, s, i, j, prev, fill) == Prepend([Entry(j, s[j], prev, None)], rest);
      assert slot + ([Entry(j, s[j], prev, None)] + rest.0) == (slot + [Entry(j, s[j], prev, None)]) + rest.0;
      slot := slot + [Entry(j, s[j], prev, None)];
      fill := true;
      prev := None;
      j := j + 1;
    }
    assert ScanSlot(t, s, i, j, prev, fill) == ([], j, prev, fill);
    assert slot + [] == slot;
  }

  function Prepend(slot: seq<Entry>, r: (seq<Entry>, nat, Option<string>, bool)): (seq<Entry>, nat, Option<string>, bool) {
    (slot + r.0, r.1, r.2, r.3)
  }

  /** What the merge loop does at a literal template position: the tokens
      it appends, the new scan start and the new `placeholder`. */
  function LiteralMerge(tok: string, s: seq<string>, start: nat, ph: bool): (seq<string>, nat, bool) {
    if start >= |s| then ([], start, ph)
    else match FindFrom(tok, s, start)
      case Some(j) => ((if j > start && !ph then [Wildcard] else []) + [tok], j + 1, false)
      case None => (if ph then [] else [Wildcard], start, true)
  }

  /** What the merge loop of `insert` does at template position `i`: the
      tokens it appends, the new scan start and the new `placeholder`. */
  function MergeSpecStep(t: seq<string>, pos: seq<nat>, s: seq<string>, i: nat, next: nat, ph: bool): (seq<string>, nat, bool)
    requires i < |t|
  {
    if i in pos then (if ph then [] else [Wildcard], next, true)
    else LiteralMerge(t[i], s, next, ph)
  }

  /** One step of the merge loop of `insert`: appending the step's tokens
      to what was appended so far leaves the same total to append. */
  lemma MergeStep(t: seq<string>, pos: seq<nat>, s: seq<string>, i: nat, next: nat, ph: bool, out: seq<string>)
    requires i < |t|
    ensures var m := MergeSpecStep(t, pos, s, i, next, ph);
      (out + m.0) + MergeOut(t, pos, s, i + 1, m.1, m.2) == out + MergeOut(t, pos, s, i, next, ph) &&
      Spaced(out + m.0) == Spaced(out) + Spaced(m.0)
  {
    var m := MergeSpecStep(t, pos, s, i, next, ph);
    MergeOutStep(t, pos, s, i, next, ph);
    assert (out + m.0) + MergeOut(t, pos, s, i + 1, m.1, m.2) == out + (m.0 + MergeOut(t, pos, s, i + 1, m.1, m.2));
    SpacedConcat(out, m.0);
  }

  /** `MergeOut` one position at a time. */
  lemma MergeOutStep(t: seq<string>, pos: seq<nat>, s: seq<string>, i: nat, next: nat, ph: bool)
    requires i < |t|
    ensures var m := MergeSpecStep(t, pos, s, i, next, ph);
      MergeOut(t, pos, s, i, next, ph) == m.0 + MergeOut(t, pos, s, i + 1, m.1, m.2)
  {
    var m := MergeSpecStep(t, pos, s, i, next, ph);
    if i in pos {
      assert m == (if ph then [] else [Wildcard], next, true);
    } else if next >= |s| {
      assert m == ([], next, ph);
      assert [] + MergeOut(t, pos, s, i + 1, next, ph) == MergeOut(t, pos, s, i + 1, next, ph);
    } else {
      match FindFrom(t[i], s, next)
      case None =>
        assert m == (if ph then [] else [Wildcard], next, true);
      case Some(j) =>
        var w: seq<string> := if j > next && !ph then [Wildcard] else [];
        assert m == (w + [t[i]], j + 1, false);
    }
  }

  /** One pass of the merge loop of `insert` at template position `i`, told
      by `skip` whether `i` is a wildcard position: the text appended to
      `temp`, the new `lastmatch` and the new `placeholder`. */
  method MergeAt(t: seq<string>, pos: seq<nat>, s: seq<string>, i: nat, skip: bool, lastmatch: int, placeholder: bool)
    returns (piece: string, lastmatch': int, placeholder': bool)
    requires i < |t| && -1 <= lastmatch < |s| && (skip <==> i in pos)
    ensures var m := MergeSpecStep(t, pos, s, i, lastmatch + 1, placeholder);
      piece == Spaced(m.0) && lastmatch' + 1 == m.1 && placeholder' == m.2
    ensures -1 <= lastmatch' < |s|
  {
    if skip {
      assert Spaced([Wildcard]) == "* ";
      piece, lastmatch', placeholder' := if placeholder then "" else "* ", lastmatch, true;
    } else {
      piece, lastmatch', placeholder' := ScanLiteral(t[i], s, lastmatch + 1, placeholder);
    }
  }

  /** The inner `for j in range(lastmatch + 1, len(seq))` loop of `insert`
      at a literal template token `tok`: the text it appends to `temp`, the
      new `lastmatch` and the new `placeholder`. */
  method ScanLiteral(tok: string, s: seq<string>, start: nat, ph: bool) returns (piece: string, lastmatch: int, placeholder: bool)
    requires start <= |s|
    ensures var m := LiteralMerge(tok, s, start, ph);
      piece == Spaced(m.0) && lastmatch + 1 == m.1 && placeholder == m.2
  {
    piece := "";
    ghost var w: seq<string> := [];
    lastmatch := start - 1;
    placeholder := ph;
    var j := start;
    while j < |s|
      invariant start <= j <= |s|
      invariant FindFrom(tok, s, start) == FindFrom(tok, s, j)
      invariant placeholder == (ph || j > start)
      invariant w == (if j > start && !ph then [Wildcard] else [])
      invariant piece == Spaced(w)
    {
      if tok == s[j] {
        placeholder := false;
        piece := piece + tok + " ";
        SpacedAppend(w, tok);
        w := w + [tok];
        lastmatch := j;
        return;
      } else if !placeholder {
        piece := piece + "* ";
        SpacedAppend(w, Wildcard);
        w := w + [Wildcard];
        placeholder := true;
      }
      j := j + 1;
    }
  }

  lemma {:induction false} SpacedConcat(a: seq<string>, b: seq<string>)
    ensures Spaced(a + b) == Spaced(a) + Spaced(b)
  {
    if a == [] {
      assert a + b == b;
    } else {
      assert (a + b)[1..] == a[1..] + b;
      SpacedConcat(a[1..], b);
    }
  }

  lemma SpacedAppend(out: seq<string>, tok: string)
    ensures Spaced(out + [tok]) == Spaced(out) + tok + " "
  {
    if out != [] {
      assert (out + [tok])[1..] == out[1..] + [tok];
      SpacedAppend(out[1..], tok);
    }
  }

  lemma LcsSeqRoundTrip(ts: seq<string>)
    ensures IsTokens(ts) ==> Tokenize(JoinSpace(ts)) == ts
  {
    if IsTokens(ts) {
      if ts == [""] {
        assert JoinSpace(ts) == "";
      } else {
        ResplitWords(ts);
      }
    }
  }

  // ---------------------------------------------------------------------
  // `LCSMap`: the list of objects with its line and object counters.

  /** An `LCSObject` as a value. */
  datatype ObjState = ObjState(lcsseq: seq<string>, pos: seq<nat>, lineids: seq<int>, objid: int)

  /** An `LCSMap` as a value: `_lcsobjs`, `_lineid`, `_objid`. */
  datatype MapState = MapState(objs: seq<ObjState>, lineid: int, objid: int)

  function Count(o: ObjState, s: seq<string>): nat {
    GreedyCount(o.lcsseq, o.pos, s)
  }

  /** What `match` looks at in one object: its template length and its
      `getlcs` count. */
  datatype Score = Score(len: nat, count: nat)

  function Scores(objs: seq<ObjState>, s: seq<string>): (r: seq<Score>)
    ensures |r| == |objs|
  {
    seq(|objs|, k requires 0 <= k < |objs| => Score(|objs[k].lcsseq|, Count(objs[k], s)))
  }

  /** The length filter of `match`: neither shorter than half the input nor
      longer than twice it (`objlen < seqlen / 2 or objlen > seqlen * 2`
      skips the object). */
  predicate LengthOk(objlen: nat, seqlen: nat) {
    !(2 * objlen < seqlen || objlen > 2 * seqlen)
  }

  /** An object `match` can return for an input of `seqlen` tokens: it passes
      the length filter and its count is at least half the input and above
      the initial best of 0. */
  predicate Candidate(sc: Score, seqlen: nat) {
    LengthOk(sc.len, seqlen) && 2 * sc.count >= seqlen && sc.count > 0
  }

  /** The `for obj in self._lcsobjs` loop of `match` from object `k` on, with
      the best index and count so far. */
  function MatchFrom(sc: seq<Score>, seqlen: nat, k: nat, best: Option<nat>, bestLen: nat): Option<nat>
    decreases |sc| - k
  {
    if k >= |sc| then best
    else if !LengthOk(sc[k].len, seqlen) then MatchFrom(sc, seqlen, k + 1, best, bestLen)
    else if 2 * sc[k].count >= seqlen && sc[k].count > bestLen then MatchFrom(sc, seqlen, k + 1, Some(k), sc[k].count)
    else MatchFrom(sc, seqlen, k + 1, best, bestLen)
  }

  /** `match`: the index in `_lcsobjs` of the object returned, or `None`. */
  function MatchSpec(objs: seq<ObjState>, s: seq<string>): Option<nat> {
    MatchFrom(Scores(objs, s), |s|, 0, None, 0)
  }

  /** What the scan has established about the objects before `k`. */
  predicate BestSoFar(sc: seq<Score>, seqlen: nat, k: nat, best: Option<nat>, bestLen: nat)
    requires k <= |sc|
  {
    match best
    case None => bestLen == 0 && forall m :: 0 <= m < k ==> !Candidate(sc[m], seqlen)
    case Some(b) =>
      b < k && Candidate(sc[b], seqlen) && bestLen == sc[b].count &&
      (forall m :: 0 <= m < k && Candidate(sc[m], seqlen) ==> sc[m].count <= bestLen) &&
      (forall m :: 0 <= m < b && Candidate(sc[m], seqlen) ==> sc[m].count < bestLen)
  }

  function BestCount(sc: seq<Score>, r: Option<nat>): nat {
    if r.Some? && r.value < |sc| then sc[r.value].count else 0
  }

  lemma {:induction false} MatchFromBest(sc: seq<Score>, seqlen: nat, k: nat, best: Option<nat>, bestLen: nat)
    requires k <= |sc| && BestSoFar(sc, seqlen, k, best, bestLen)
    ensures BestSoFar(sc, seqlen, |sc|, MatchFrom(sc, seqlen, k, best, bestLen), BestCount(sc, MatchFrom(sc, seqlen, k, best, bestLen)))
    decreases |sc| - k
  {
    if k < |sc| {
      if !LengthOk(sc[k].len, seqlen) {
        MatchFromBest(sc, seqlen, k + 1, best, bestLen);
      } else if 2 * sc[k].count >= seqlen && sc[k].count > bestLen {
        MatchFromBest(sc, seqlen, k + 1, Some(k), sc[k].count);
      } else {
        MatchFromBest(sc, seqlen, k + 1, best, bestLen);
      }
    }
  }

  lemma {:induction false} MatchInRange(sc: seq<Score>, seqlen: nat, k: nat, best: Option<nat>, bestLen: nat)
    requires best.Some? ==> best.value < |sc|
    ensures MatchFrom(sc, seqlen, k, best, bestLen).Some? ==> MatchFrom(sc, seqlen, k, best, bestLen).value < |sc|
    decreases |sc| - k
  {
    if k < |sc| {
      MatchInRange(sc, seqlen, k + 1, best, bestLen);
      MatchInRange(sc, seqlen, k + 1, Some(k), sc[k].count);
    }
  }

  /** The rules of `match`: `None` exactly when no object is a candidate;
      otherwise a candidate with the greatest count, and the earliest such
      since a later object must beat the best count strictly. */
  lemma MatchRules(objs: seq<ObjState>, s: seq<string>)
    ensures var sc := Scores(objs, s);
      MatchSpec(objs, s).None? <==> forall m :: 0 <= m < |sc| ==> !Candidate(sc[m], |s|)
    ensures var sc := Scores(objs, s);
      MatchSpec(objs, s).Some? ==>
        var k := MatchSpec(objs, s).value;
        k < |sc| && Candidate(sc[k], |s|) &&
        (forall m :: 0 <= m < |sc| && Candidate(sc[m], |s|) ==> sc[m].count <= sc[k].count) &&
        (forall m :: 0 <= m < k && Candidate(sc[m], |s|) ==> sc[m].count < sc[k].count)
  {
    MatchFromBest(Scores(objs, s), |s|, 0, None, 0);
  }

  /** `LCSMap.insert` on values: the entry is tokenized and matched; with no
      match a new object holding the tokens is appended, otherwise the
      matched object merges them. The line counter grows first, so the
      line gets the new value of `_lineid`. */
  function InsertState(st: MapState, entry: string): MapState {
    InsertTokens(st, Tokenize(entry))
  }

  /** `LCSMap.insert` after the split of the entry into tokens `s`. */
  function InsertTokens(st: MapState, s: seq<string>): MapState {
    match MatchSpec(st.objs, s)
    case None => AppendObj(st, s)
    case Some(k) => if k < |st.objs| then MergeObj(st, k, s) else st
  }

  /** The no-match branch of `LCSMap.insert`: a new object for the next
      line id and the next object id. */
  function AppendObj(st: MapState, s: seq<string>): MapState {
    MapState(st.objs + [ObjState(s, [], [st.lineid + 1], st.objid)], st.lineid + 1, st.objid + 1)
  }

  /** The match branch of `LCSMap.insert`: object `k` merges the tokens
      under the next line id. */
  function MergeObj(st: MapState, k: nat, s: seq<string>): MapState
    requires k < |st.objs|
  {
    MapState(st.objs[k := MergeInto(st.objs[k], s, st.lineid + 1)], st.lineid + 1, st.objid)
  }

  /** `LCSObject.insert` on values. */
  function MergeInto(o: ObjState, s: seq<string>, lineid: int): ObjState {
    var t := Merged(o.lcsseq, o.pos, s);
    ObjState(t, WildPositions(t, 0), o.lineids + [lineid], o.objid)
  }

  /** The line ids recorded over all objects. */
  function IdBag(objs: seq<ObjState>): multiset<int> {
    if objs == [] then multiset{} else multiset(objs[0].lineids) + IdBag(objs[1..])
  }

  /** The ids 1 to `n`, each once. */
  function Upto(n: int): multiset<int>
    decreases n
  {
    if n <= 0 then multiset{} else Upto(n - 1) + multiset{n}
  }

  /** What every sequence of `LCSMap.insert` calls keeps: objects are
      numbered by position and `_objid` counts them, every template is
      tokenizer output whose `_pos` is empty (never merged) or lists exactly
      its wildcards, and the line ids handed out so far are spread over the
      objects with each in exactly one object, once. */
  predicate WellFormed(st: MapState) {
    st.objid == |st.objs| && st.lineid >= 0 && ObjsOk(st.objs) && IdBag(st.objs) == Upto(st.lineid)
  }

  /** Object `k` of the map carries id `k`, a tokenizer-output template and
      either no wildcard positions or exactly its wildcards. */
  predicate ObjOk(o: ObjState, k: int) {
    o.objid == k && IsTokens(o.lcsseq) && (o.pos == [] || o.pos == WildPositions(o.lcsseq, 0))
  }

  predicate ObjsOk(objs: seq<ObjState>) {
    forall k :: 0 <= k < |objs| ==> ObjOk(objs[k], k)
  }

  lemma {:induction false} IdBagAppend(objs: seq<ObjState>, o: ObjState)
    ensures IdBag(objs + [o]) == IdBag(objs) + multiset(o.lineids)
  {
    if objs != [] {
      assert (objs + [o])[1..] == objs[1..] + [o];
      IdBagAppend(objs[1..], o);
    } else {
      assert [] + [o] == [o];
    }
  }

  lemma {:induction false} IdBagUpdate(objs: seq<ObjState>, k: nat, o: ObjState)
    requires k < |objs|
    ensures IdBag(objs[k := o]) + multiset(objs[k].lineids) == IdBag(objs) + multiset(o.lineids)
  {
    if k > 0 {
      var objs' := objs[k := o];
      var A := multiset(objs[0].lineids);
      assert objs'[0] == objs[0];
      assert objs'[1..] == objs[1..][k - 1 := o];
      assert objs[k] == objs[1..][k - 1];
      IdBagUpdate(objs[1..], k - 1, o);
      calc {
        IdBag(objs') + multiset(objs[k].lineids);
        A + IdBag(objs'[1..]) + multiset(objs[k].lineids);
        A + (IdBag(objs[1..][k - 1 := o]) + multiset(objs[1..][k - 1].lineids));
        A + (IdBag(objs[1..]) + multiset(o.lineids));
        IdBag(objs) + multiset(o.lineids);
      }
    } else {
      assert objs[k := o][1..] == objs[1..];
    }
  }

  lemma Cancel(x: multiset<int>, y: multiset<int>, m: multiset<int>)
    requires x + m == y + m
    ensures x == y
  {
    forall e
      ensures x[e] == y[e]
    {
      assert (x + m)[e] == (y + m)[e];
    }
  }

  /** `LCSMap.insert` keeps the map well formed: `_lineid` grows by one and
      the new line id lands in exactly one object. */
  lemma InsertWellFormed(st: MapState, s: seq<string>)
    requires WellFormed(st) && IsTokens(s)
    ensures WellFormed(InsertTokens(st, s))
    ensures InsertTokens(st, s).lineid == st.lineid + 1
  {
    InsertTokensCases(st, s);
    if MatchSpec(st.objs, s).None? {
      AppendWellFormed(st, s);
    } else {
      var k := MatchSpec(st.objs, s).value;
      var o' := MergeInto(st.objs[k], s, st.lineid + 1);
      MergeIntoOk(st.objs[k], s, k, st.lineid + 1);
      ReplaceWellFormed(st, k, o');
    }
  }

  /** The two outcomes of `LCSMap.insert`, unfolded. */
  lemma InsertTokensCases(st: MapState, s: seq<string>)
    ensures MatchSpec(st.objs, s).None? ==>
      InsertTokens(st, s) == MapState(st.objs + [ObjState(s, [], [st.lineid + 1], st.objid)], st.lineid + 1, st.objid + 1)
    ensures MatchSpec(st.objs, s).Some? ==>
      var k := MatchSpec(st.objs, s).value;
      k < |st.objs| &&
      InsertTokens(st, s) == MapState(st.objs[k := MergeInto(st.objs[k], s, st.lineid + 1)], st.lineid + 1, st.objid)
  {
    MatchInRange(Scores(st.objs, s), |s|, 0, None, 0);
  }

  lemma AppendWellFormed(st: MapState, s: seq<string>)
    requires WellFormed(st) && IsTokens(s)
    ensures WellFormed(MapState(st.objs + [ObjState(s, [], [st.lineid + 1], st.objid)], st.lineid + 1, st.objid + 1))
  {
    var o := ObjState(s, [], [st.lineid + 1], st.objid);
    IdBagAppend(st.objs, o);
  }

  /** Merging an input into an object keeps it well formed and records the
      line id. */
  lemma MergeIntoOk(o: ObjState, s: seq<string>, k: int, lineid: int)
    requires ObjOk(o, k) && IsTokens(s)
    ensures ObjOk(MergeInto(o, s, lineid), k)
    ensures MergeInto(o, s, lineid).lineids == o.lineids + [lineid]
  {
    MergedIsOut(o.lcsseq, o.pos, s);
  }

  lemma ReplaceWellFormed(st: MapState, k: nat, o': ObjState)
    requires WellFormed(st) && k < |st.objs|
    requires ObjOk(o', k) && o'.lineids == st.objs[k].lineids + [st.lineid + 1]
    ensures WellFormed(MapState(st.objs[k := o'], st.lineid + 1, st.objid))
  {
    MergeIds(st.objs, k, o', st.lineid);
    var objs' := st.objs[k := o'];
    forall m | 0 <= m < |objs'|
      ensures ObjOk(objs'[m], m)
    {
      if m != k {
        assert objs'[m] == st.objs[m];
      }
    }
  }

  lemma MergeIds(objs: seq<ObjState>, k: nat, o': ObjState, lineid: int)
    requires k < |objs| && lineid >= 0 && IdBag(objs) == Upto(lineid)
    requires o'.lineids == objs[k].lineids + [lineid + 1]
    ensures IdBag(objs[k := o']) == Upto(lineid + 1)
  {
    var o := objs[k];
    var objs' := objs[k := o'];
    IdBagUpdate(objs, k, o');
    assert multiset(o'.lineids) == multiset(o.lineids) + multiset{lineid + 1};
    assert Upto(lineid + 1) == Upto(lineid) + multiset{lineid + 1};
    assert IdBag(objs') + multiset(o.lineids) == Upto(lineid + 1) + multiset(o.lineids);
    Cancel(IdBag(objs'), Upto(lineid + 1), multiset(o.lineids));
  }

  /** `LCSMap.insert` grows `_lcsobjs` and `_objid` by one exactly when
      `match` finds nothing, and the new object holds the entry's tokens;
      otherwise it changes the matched object only. */
  lemma InsertShape(st: MapState, s: seq<string>)
    ensures var st' := InsertTokens(st, s);
      (MatchSpec(st.objs, s).None? <==> |st'.objs| == |st.objs| + 1) &&
      (MatchSpec(st.objs, s).None? <==> st'.objid == st.objid + 1)
    ensures var st' := InsertTokens(st, s);
      MatchSpec(st.objs, s).None? ==> st'.objs[..|st.objs|] == st.objs && st'.objs[|st.objs|].lcsseq == s
    ensures var st' := InsertTokens(st, s);
      MatchSpec(st.objs, s).Some? ==>
        (|st'.objs| == |st.objs| && st'.objid == st.objid &&
         forall m :: 0 <= m < |st.objs| && m != MatchSpec(st.objs, s).value ==> st'.objs[m] == st.objs[m])
  {
    MatchRules(st.objs, s);
    match MatchSpec(st.objs, s)
    case None =>
    case Some(k) =>
  }

  /** A template matches its own tokens at every literal position. */
  lemma {:induction false} AlignSelf(t: seq<string>, i: nat)
    requires i <= |t|
    ensures |Align(t, [], t, i, i)| == |t| - i
    decreases |t| - i
  {
    if i < |t| {
      assert FindFrom(t[i], t, i) == Some(i);
      AlignSelf(t, i + 1);
    }
  }

  /** An entry that opened a new object is matched by that very object when
      it comes again: no earlier object qualifies, so the new one wins, and
      repeating a line never opens a second object for it. */
  lemma RepeatMatches(st: MapState, s: seq<string>)
    requires IsTokens(s)
    requires MatchSpec(st.objs, s).None?
    ensures MatchSpec(InsertTokens(st, s).objs, s) == Some(|st.objs|)
  {
    var objs' := InsertTokens(st, s).objs;
    var n := |st.objs|;
    assert objs'[n].lcsseq == s && objs'[n].pos == [];
    AlignSelf(s, 0);
    var sc := Scores(objs', s);
    assert sc[n] == Score(|s|, |s|);
    assert Candidate(sc[n], |s|);
    MatchRules(st.objs, s);
    MatchRules(objs', s);
    assert forall m :: 0 <= m < n ==> sc[m] == Scores(st.objs, s)[m];
  }

  /** A template with no wildcard slots merged with itself: each token is
      found where it stands, so the merge emits the template unchanged. */
  lemma {:induction false} MergeOutSelf(s: seq<string>, i: nat)
    requires i <= |s|
    ensures MergeOut(s, [], s, i, i, false) == s[i..]
    decreases |s| - i
  {
    if i < |s| {
      assert FindFrom(s[i], s, i) == Some(i);
      MergeOutSelf(s, i + 1);
      assert s[i..] == [s[i]] + s[i + 1..];
    }
  }

  /** Inserting the same entry twice: the second insert merges into the
      object the first one opened, leaves the number of objects as it was,
      and leaves that object's template unchanged. */
  lemma RepeatKeepsTemplate(st: MapState, s: seq<string>)
    requires IsTokens(s)
    requires MatchSpec(st.objs, s).None?
    ensures var st1 := InsertTokens(st, s);
      var st2 := InsertTokens(st1, s);
      |st2.objs| == |st1.objs| == |st.objs| + 1
      && st1.objs[|st.objs|].lcsseq == s
      && st2.objs[|st.objs|].lcsseq == s
      && st2.objs[|st.objs|].pos == WildPositions(s, 0)
      && st2.objs[|st.objs|].lineids == st1.objs[|st.objs|].lineids + [st1.lineid + 1]
  {
    RepeatMatches(st, s);
    MergedIsOut(s, [], s);
    MergeOutSelf(s, 0);
    assert s[0..] == s;
  }

  /** The objects as values. */
  function Views(objs: seq<LcsObject>): (r: seq<ObjState>)
    reads objs
    ensures |r| == |objs| && forall k :: 0 <= k < |objs| ==> r[k] == objs[k].View()
  {
    if objs == [] then [] else [objs[0].View()] + Views(objs[1..])
  }

  /** `LCSMap`: the objects in creation order and the two counters. */
  class LcsMap {
    var lcsobjs: seq<LcsObject>
    var lineid: int
    var objid: int

    /** The objects are distinct, so merging into one leaves the others. */
    ghost predicate Valid()
      reads this
    {
      forall a, b :: 0 <= a < b < |lcsobjs| ==> lcsobjs[a] != lcsobjs[b]
    }

    /** The map as a value. */
    function State(): MapState
      reads this, lcsobjs
    {
      MapState(Views(lcsobjs), lineid, objid)
    }

    constructor ()
      ensures Valid() && State() == MapState([], 0, 0)
    {
      lcsobjs := [];
      lineid := 0;
      objid := 0;
    }

    /** `match`, returning the position in `_lcsobjs` of the object. */
    method Match(s: seq<string>) returns (r: Option<nat>)
      ensures r == MatchSpec(State().objs, s)
      ensures r.Some? ==> r.value < |lcsobjs|
    {
      ghost var sc := Scores(State().objs, s);
      var best: Option<nat> := None;
      var bestLen := 0;
      var seqlen := |s|;
      var k := 0;
      while k < |lcsobjs|
        invariant 0 <= k <= |lcsobjs|
        invariant best.Some? ==> best.value < k
        invariant MatchFrom(sc, seqlen, k, best, bestLen) == MatchFrom(sc, seqlen, 0, None, 0)
      {
        var obj := lcsobjs[k];
        var objlen := obj.Length();
        if 2 * objlen < seqlen || objlen > 2 * seqlen {
          k := k + 1;
          continue;
        }
        var lcs := obj.GetLcs(s);
        assert sc[k] == Score(objlen, lcs);
        if 2 * lcs >= seqlen && lcs > bestLen {
          best := Some(k);
          bestLen := lcs;
        }
        k := k + 1;
      }
      MatchFromBound(sc, seqlen, k, best, bestLen);
      r := best;
    }

    /** `insert`: the line gets the next line id; with no match a new
        object holding the entry's tokens is appended, otherwise the matched
        object merges them (the two cases of `InsertState`); no other object
        changes. */
    method Insert(entry: string) returns (obj: LcsObject)
      requires Valid()
      modifies this, lcsobjs
      ensures Valid()
      ensures State() == InsertState(old(State()), entry)
      ensures var m := MatchSpec(old(State()).objs, Tokenize(entry));
        m.None? ==> fresh(obj) && lcsobjs == old(lcsobjs) + [obj]
      ensures var m := MatchSpec(old(State()).objs, Tokenize(entry));
        m.Some? ==> lcsobjs == old(lcsobjs) && m.value < |lcsobjs| && obj == lcsobjs[m.value]
    {
      var s := Tokenize(entry);
      var m := Match(s);
      if m.None? {
        obj := AddObject(s);
      } else {
        obj := MergeObject(m.value, s);
      }
    }

    /** The no-match branch of `insert`. */
    method AddObject(s: seq<string>) returns (obj: LcsObject)
      requires Valid()
      modifies this
      ensures Valid() && State() == AppendObj(old(State()), s)
      ensures fresh(obj) && lcsobjs == old(lcsobjs) + [obj]
    {
      ghost var before := State();
      lineid := lineid + 1;
      obj := new LcsObject(objid, s, lineid);
      lcsobjs := lcsobjs + [obj];
      objid := objid + 1;
      assert State().objs == before.objs + [ObjState(s, [], [lineid], before.objid)];
    }

    /** The match branch of `insert`: object `k` merges the tokens. */
    method MergeObject(k: nat, s: seq<string>) returns (obj: LcsObject)
      requires Valid() && k < |lcsobjs|
      modifies this, lcsobjs[k]
      ensures Valid() && State() == MergeObj(old(State()), k, s)
      ensures lcsobjs == old(lcsobjs) && obj == lcsobjs[k]
    {
      ghost var before := State();
      obj := lcsobjs[k];
      lineid := lineid + 1;
      obj.Insert(s, lineid);
      forall i | 0 <= i < |lcsobjs| && i != k
        ensures State().objs[i] == before.objs[i]
      {
        assert lcsobjs[i] != obj;
      }
      assert State().objs == before.objs[k := MergeInto(before.objs[k], s, lineid)];
    }
  }

  lemma MatchFromBound(sc: seq<Score>, seqlen: nat, k: nat, best: Option<nat>, bestLen: nat)
    requires k >= |sc|
    ensures MatchFrom(sc, seqlen, k, best, bestLen) == best
  {
  }
}
