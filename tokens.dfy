/** Tokens, whitespace splitting and joining, as the Python code does them.

    `re.split(r'\s+', s)`, `s.strip()`, `s.split()` and `' '.join(ts)` are
    library calls in the source; they are defined here over `string` so that
    the parsers built on them can be stated and proved exactly. */
module Tokens {

  /** The wildcard marker of a template: an ordinary string token. */
  const Wildcard: string := "*"

  /** The characters Python's `str.isspace()` and the `\s` class of `re`
      accept as whitespace. */
  predicate IsSpace(c: char) {
    ('\t' <= c <= '\r') || ('\U{1C}' <= c <= ' ') || c == '\U{85}' || c == '\U{A0}'
    || c == '\U{1680}' || ('\U{2000}' <= c <= '\U{200A}') || c == '\U{2028}' || c == '\U{2029}'
    || c == '\U{202F}' || c == '\U{205F}' || c == '\U{3000}'
  }

  predicate NoSpace(t: string) {
    forall i :: 0 <= i < |t| ==> !IsSpace(t[i])
  }

  /** A token a whitespace split of a non-blank string yields. */
  predicate IsWord(t: string) {
    t != "" && NoSpace(t)
  }

  /** What `re.split(r'\s+', s.strip())` can return: `[""]` for a blank
      string, otherwise one or more words. */
  predicate IsTokens(ts: seq<string>) {
    ts == [""] || (|ts| >= 1 && forall k :: 0 <= k < |ts| ==> IsWord(ts[k]))
  }

  /** `s.lstrip()` */
  function LStrip(s: string): (r: string)
    ensures |r| <= |s|
  {
    if s != [] && IsSpace(s[0]) then LStrip(s[1..]) else s
  }

  /** `s.rstrip()` */
  function RStrip(s: string): (r: string)
    ensures |r| <= |s|
  {
    if s != [] && IsSpace(s[|s| - 1]) then RStrip(s[..|s| - 1]) else s
  }

  /** `s.strip()` */
  function Strip(s: string): string {
    RStrip(LStrip(s))
  }

  /** `re.split(r'\s+', s)`: the pieces between maximal whitespace runs; a
      run at either end yields an empty first or last piece. */
  function SplitWs(s: string): (r: seq<string>)
    ensures |r| >= 1
    decreases |s|
  {
    if s == [] then [""]
    else if IsSpace(s[0]) then [""] + SplitWs(LStrip(s))
    else
      var rest := SplitWs(s[1..]);
      [[s[0]] + rest[0]] + rest[1..]
  }

  /** `re.split(r'\s+', s.strip())`, the tokenizer of the streaming parser. */
  function Tokenize(s: string): seq<string> {
    SplitWs(Strip(s))
  }

  /** The tokens of `ts` that are not empty. */
  function NonEmpty(ts: seq<string>): (r: seq<string>)
    ensures |r| <= |ts|
  {
    if ts == [] then [] else (if ts[0] == "" then [] else [ts[0]]) + NonEmpty(ts[1..])
  }

  /** `len(s.split())`: the number of whitespace-separated words of `s`. */
  function CountWords(s: string): nat {
    |NonEmpty(SplitWs(s))|
  }

  /** `' '.join(ts)` */
  function JoinSpace(ts: seq<string>): string {
    if ts == [] then ""
    else if |ts| == 1 then ts[0]
    else ts[0] + " " + JoinSpace(ts[1..])
  }

  /** `[w for w in ts if w != '*']`: the literal tokens of a template. */
  function Literals(ts: seq<string>): (r: seq<string>)
    ensures |r| <= |ts|
  {
    if ts == [] then []
    else (if ts[0] == Wildcard then [] else [ts[0]]) + Literals(ts[1..])
  }

  /** `x` is a subsequence of `y` (decided greedily, which is exact). */
  predicate IsSubseq<T(==)>(x: seq<T>, y: seq<T>)
    decreases |y|
  {
    x == [] || (y != [] && if x[0] == y[0] then IsSubseq(x[1..], y[1..]) else IsSubseq(x, y[1..]))
  }

  /** A subsequence is no longer than the list. */
  lemma {:induction false} SubseqLength<T>(x: seq<T>, y: seq<T>)
    requires IsSubseq(x, y)
    ensures |x| <= |y|
    decreases |y|
  {
    if x != [] {
      if x[0] == y[0] {
        SubseqLength(x[1..], y[1..]);
      } else {
        SubseqLength(x, y[1..]);
      }
    }
  }

  // ---------------------------------------------------------------------
  // What stripping removes and keeps.

  /** `s.lstrip()` is the suffix of `s` after its leading whitespace. */
  lemma {:induction false} LStripFacts(s: string)
    ensures LStrip(s) == s[|s| - |LStrip(s)|..]
    ensures LStrip(s) == [] || !IsSpace(LStrip(s)[0])
    ensures forall i :: 0 <= i < |s| - |LStrip(s)| ==> IsSpace(s[i])
    decreases |s|
  {
    if s != [] && IsSpace(s[0]) {
      LStripFacts(s[1..]);
    }
  }

  /** `s.rstrip()` is the prefix of `s` before its trailing whitespace. */
  lemma {:induction false} RStripFacts(s: string)
    ensures RStrip(s) == s[..|RStrip(s)|]
    ensures RStrip(s) == [] || !IsSpace(RStrip(s)[|RStrip(s)| - 1])
    ensures forall i :: |RStrip(s)| <= i < |s| ==> IsSpace(s[i])
    decreases |s|
  {
    if s != [] && IsSpace(s[|s| - 1]) {
      RStripFacts(s[..|s| - 1]);
    }
  }

  /** The literals of a template hold no wildcard. */
  lemma {:induction false} LiteralsNoWildcard(ts: seq<string>)
    ensures Wildcard !in Literals(ts)
  {
    if ts != [] {
      LiteralsNoWildcard(ts[1..]);
    }
  }

  // ---------------------------------------------------------------------
  // Splitting and joining are inverse on words.

  /** A piece without whitespace in front of a string joins the first piece
      of the split of that string. */
  lemma {:induction false} SplitAfterWord(w: string, s: string)
    requires NoSpace(w)
    ensures SplitWs(w + s) == [w + SplitWs(s)[0]] + SplitWs(s)[1..]
    decreases |w|
  {
    if w != [] {
      var ws := w + s;
      assert ws[0] == w[0] && !IsSpace(ws[0]);
      assert ws[1..] == w[1..] + s;
      SplitAfterWord(w[1..], s);
      var rest := SplitWs(ws[1..]);
      assert rest == [w[1..] + SplitWs(s)[0]] + SplitWs(s)[1..];
      assert SplitWs(ws) == [[ws[0]] + rest[0]] + rest[1..];
      assert [w[0]] + (w[1..] + SplitWs(s)[0]) == w + SplitWs(s)[0];
    } else {
      var S := SplitWs(s);
      assert w + s == s && w + S[0] == S[0];
      assert S == [S[0]] + S[1..];
    }
  }

  lemma {:induction false} JoinStartsWithWord(ts: seq<string>)
    requires |ts| >= 1 && forall k :: 0 <= k < |ts| ==> IsWord(ts[k])
    ensures |JoinSpace(ts)| >= |ts[0]| > 0 && JoinSpace(ts)[..|ts[0]|] == ts[0]
    ensures !IsSpace(JoinSpace(ts)[0])
    ensures !IsSpace(JoinSpace(ts)[|JoinSpace(ts)| - 1])
  {
    if |ts| > 1 {
      JoinStartsWithWord(ts[1..]);
      var j := JoinSpace(ts[1..]);
      assert JoinSpace(ts) == ts[0] + " " + j;
      assert JoinSpace(ts)[|JoinSpace(ts)| - 1] == j[|j| - 1];
    }
  }

  lemma SplitAfterSpace(j: string)
    requires j != [] && !IsSpace(j[0])
    ensures SplitWs(" " + j) == [""] + SplitWs(j)
  {
    var s := " " + j;
    assert s[1..] == j;
    assert LStrip(s) == LStrip(j) == j;
  }

  /** `re.split(r'\s+', ' '.join(ts))` gives back the words `ts`. */
  lemma {:induction false} SplitJoin(ts: seq<string>)
    requires |ts| >= 1 && forall k :: 0 <= k < |ts| ==> IsWord(ts[k])
    ensures SplitWs(JoinSpace(ts)) == ts
  {
    if |ts| == 1 {
      SplitAfterWord(ts[0], "");
      assert ts[0] + "" == ts[0];
      assert SplitWs("") == [""];
    } else {
      var j := JoinSpace(ts[1..]);
      SplitJoin(ts[1..]);
      JoinStartsWithWord(ts[1..]);
      var s := " " + j;
      SplitAfterSpace(j);
      assert JoinSpace(ts) == ts[0] + s;
      SplitAfterWord(ts[0], s);
      assert ts[0] + "" == ts[0];
      assert ts == [ts[0]] + ts[1..];
    }
  }

  /** Stripping, joining and re-splitting words, as the streaming template
      merge does, gives the words back; no words give `[""]`. */
  lemma ResplitWords(out: seq<string>)
    requires forall k :: 0 <= k < |out| ==> IsWord(out[k])
    ensures Tokenize(JoinSpace(out)) == if out == [] then [""] else out
  {
    if out == [] {
      assert Strip(JoinSpace(out)) == "";
    } else {
      assert Tokenize(JoinSpace(out)) == out by {
        JoinStartsWithWord(out);
        StripWord(JoinSpace(out));
        SplitJoin(out);
      }
    }
  }

  /** Stripping a string that starts and ends with a non-space leaves it. */
  lemma StripWord(j: string)
    requires j != [] && !IsSpace(j[0]) && !IsSpace(j[|j| - 1])
    ensures Strip(j) == j
  {
    assert LStrip(j) == j;
  }

  /** Stripping such a string followed by a space removes just the space. */
  lemma StripTrailingSpace(j: string)
    requires j != [] && !IsSpace(j[0]) && !IsSpace(j[|j| - 1])
    ensures Strip(j + " ") == j
  {
    var js := j + " ";
    assert LStrip(js) == js;
    assert js[..|js| - 1] == j;
    assert RStrip(js) == RStrip(j);
    StripWord(j);
  }

  // ---------------------------------------------------------------------
  // What the tokenizer yields.

  /** No piece of a whitespace split holds whitespace. */
  lemma {:induction false} SplitWsNoSpace(s: string)
    ensures forall k :: 0 <= k < |SplitWs(s)| ==> NoSpace(SplitWs(s)[k])
    decreases |s|
  {
    if s != [] {
      if IsSpace(s[0]) {
        SplitWsNoSpace(LStrip(s));
      } else {
        SplitWsNoSpace(s[1..]);
        var rest := SplitWs(s[1..]);
        var p := [s[0]] + rest[0];
        assert NoSpace(p) by {
          forall i | 0 <= i < |p|
            ensures !IsSpace(p[i])
          {
            if i > 0 {
              assert p[i] == rest[0][i - 1];
            }
          }
        }
        assert SplitWs(s) == [p] + rest[1..];
      }
    }
  }

  /** Pieces of a split are empty only at an end that is whitespace. */
  lemma SplitPiecesNonEmpty(t: string)
    ensures forall k :: 0 < k < |SplitWs(t)| - 1 ==> SplitWs(t)[k] != ""
    ensures t != [] && !IsSpace(t[0]) ==> SplitWs(t)[0] != ""
    ensures t != [] && !IsSpace(t[|t| - 1]) ==> SplitWs(t)[|SplitWs(t)| - 1] != ""
  {
    SplitMiddleNonEmpty(t);
    SplitLastNonEmpty(t);
  }

  lemma {:induction false} SplitMiddleNonEmpty(t: string)
    ensures forall k :: 0 < k < |SplitWs(t)| - 1 ==> SplitWs(t)[k] != ""
    decreases |t|
  {
    if t == [] {
    } else if IsSpace(t[0]) {
      var u := LStrip(t);
      LStripFacts(t);
      SplitMiddleNonEmpty(u);
      var r := SplitWs(t);
      assert r == [""] + SplitWs(u);
      if u != [] {
        assert SplitWs(u) == [[u[0]] + SplitWs(u[1..])[0]] + SplitWs(u[1..])[1..];
      }
      forall k | 0 < k < |r| - 1
        ensures r[k] != ""
      {
        assert r[k] == SplitWs(u)[k - 1];
      }
    } else {
      SplitMiddleNonEmpty(t[1..]);
      var rest := SplitWs(t[1..]);
      var r := SplitWs(t);
      assert r == [[t[0]] + rest[0]] + rest[1..];
      forall k | 0 < k < |r| - 1
        ensures r[k] != ""
      {
        assert r[k] == rest[k];
      }
    }
  }

  lemma {:induction false} SplitLastNonEmpty(t: string)
    ensures t != [] && !IsSpace(t[|t| - 1]) ==> SplitWs(t)[|SplitWs(t)| - 1] != ""
    decreases |t|
  {
    if t != [] && !IsSpace(t[|t| - 1]) {
      var r := SplitWs(t);
      if IsSpace(t[0]) {
        var u := LStrip(t);
        LStripFacts(t);
        SplitLastNonEmpty(u);
        assert r == [""] + SplitWs(u);
        assert u != [] && u[|u| - 1] == t[|t| - 1];
        assert r[|r| - 1] == SplitWs(u)[|SplitWs(u)| - 1];
      } else {
        var rest := SplitWs(t[1..]);
        assert r == [[t[0]] + rest[0]] + rest[1..];
        if |t| > 1 {
          SplitLastNonEmpty(t[1..]);
          assert t[1..][|t[1..]| - 1] == t[|t| - 1];
          if |rest| > 1 {
            assert r[|r| - 1] == rest[|rest| - 1];
          }
        } else {
          assert rest == [""];
        }
      }
    }
  }

  /** `re.split(r'\s+', s.strip())` is `[""]` for a blank `s` and words
      otherwise. */
  lemma TokenizeIsTokens(s: string)
    ensures IsTokens(Tokenize(s))
    ensures Tokenize(s) == [""] <==> Strip(s) == ""
  {
    var l := LStrip(s);
    var t := Strip(s);
    LStripFacts(s);
    RStripFacts(l);
    SplitPiecesNonEmpty(t);
    SplitWsNoSpace(t);
    if t != "" {
      assert t[0] == l[0];
      var r := SplitWs(t);
      assert forall k :: 0 <= k < |r| ==> IsWord(r[k]);
    }
  }
}
