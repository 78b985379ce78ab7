/** The older copy of the batch parser, `src/spell.py`. Its matchers and
    its table fill are those of `src/pyspell/spell.py` (modules `BatchLcs`,
    `BatchMatch`, `BatchTree`); what differs is modelled here: the walk back
    through the LCS table, whose `assert` reads the wrong token, the
    removal from the prefix tree, which reads a field `Node` does not have,
    and `get_template`, which builds the template without parameters. */
module OldSpell {
  import opened Wrappers
  import opened Tokens
  import opened BatchLcs
  import opened BatchTemplate
  import opened BatchTree

  // ---------------------------------------------------------------------
  // lcs

  /** The walk back of `lcs` as written: on a diagonal step it first
      asserts `seq1[seq1_len] == seq2[seq2_len - 1]`, one token past the
      one it then takes. With `seq1_len == len(seq1)` that index is out of
      range. */
  function OldTraceback(a: seq<string>, b: seq<string>, i: nat, j: nat): (r: Result<seq<string>>)
    requires i <= |a| && j <= |b|
    ensures r.Err? ==> r.error in {IndexError, AssertionError}
    decreases i + j
  {
    if i == 0 || j == 0 then Ok([])
    else if L(a, b, i, j) == L(a, b, i - 1, j) then OldTraceback(a, b, i - 1, j)
    else if L(a, b, i, j) == L(a, b, i, j - 1) then OldTraceback(a, b, i, j - 1)
    else if i == |a| then Err(IndexError)
    else if a[i] != b[j - 1] then Err(AssertionError)
    else
      match OldTraceback(a, b, i - 1, j - 1)
      case Ok(x) => Ok(x + [a[i - 1]])
      case Err(e) => Err(e)
  }

  /** `lcs(seq1, seq2)` of `src/spell.py`: it fails only through its
      `assert`, and where it gets through it returns the corrected
      result, a longest common subsequence. */
  function OldLcs(a: seq<string>, b: seq<string>): (r: Result<seq<string>>)
    ensures r.Err? ==> r.error in {IndexError, AssertionError}
    ensures r.Ok? ==> r.value == Traceback(a, b, |a|, |b|)
    ensures r.Ok? ==> IsSubseq(r.value, a) && IsSubseq(r.value, b) && |r.value| == L(a, b, |a|, |b|)
  {
    OldTracebackAgrees(a, b, |a|, |b|);
    LcsCommon(a, b);
    OldTraceback(a, b, |a|, |b|)
  }

  /** Where the walk as written gets through, it returns the walk of the
      corrected code; it can only fail, and only with the two errors of the
      misplaced `assert`. */
  lemma {:induction false} OldTracebackAgrees(a: seq<string>, b: seq<string>, i: nat, j: nat)
    requires i <= |a| && j <= |b|
    ensures OldTraceback(a, b, i, j).Ok? ==> OldTraceback(a, b, i, j).value == Traceback(a, b, i, j)
    ensures OldTraceback(a, b, i, j).Err? ==> OldTraceback(a, b, i, j).error in {IndexError, AssertionError}
    decreases i + j
  {
    if i != 0 && j != 0 {
      if L(a, b, i, j) == L(a, b, i - 1, j) {
        OldTracebackAgrees(a, b, i - 1, j);
      } else if L(a, b, i, j) == L(a, b, i, j - 1) {
        OldTracebackAgrees(a, b, i, j - 1);
      } else if i < |a| && a[i] == b[j - 1] {
        OldTracebackAgrees(a, b, i - 1, j - 1);
      }
    }
  }

  /** Two one-token lines that agree: the first diagonal step has
      `seq1_len == len(seq1)`, and `seq1[1]` is out of range. */
  lemma OldLcsIndexError()
    ensures OldLcs(["a"], ["a"]) == Err(IndexError)
    ensures Traceback(["a"], ["a"], 1, 1) == ["a"]
  {
    var a: seq<string> := ["a"];
    assert L(a, a, 1, 1) == 1 && L(a, a, 0, 1) == 0 && L(a, a, 1, 0) == 0;
  }

  /** `["a", "b"]` against `["a"]`: the walk steps up to `seq1_len == 1`,
      where the diagonal step compares `"b"` with `"a"`. */
  lemma OldLcsAssertionError()
    ensures OldLcs(["a", "b"], ["a"]) == Err(AssertionError)
    ensures Traceback(["a", "b"], ["a"], 2, 1) == ["a"]
  {
    var a: seq<string> := ["a", "b"];
    var b: seq<string> := ["a"];
    assert L(a, b, 1, 1) == 1 && L(a, b, 0, 1) == 0 && L(a, b, 1, 0) == 0;
    assert L(a, b, 2, 0) == 0 && L(a, b, 2, 1) == 1;
  }

  // ---------------------------------------------------------------------
  // get_template

  /** `get_template(lcs, seq)` of `src/spell.py`: the template alone, built
      by the same walk as in `src/pyspell/spell.py`. */
  function OldGetTemplate(lcs: seq<string>, s: seq<string>): (r: seq<string>)
    ensures lcs == [] ==> r == []
    ensures |r| <= |s| && forall k :: 0 <= k < |r| ==> r[k] in {s[k], Wildcard}
  {
    if lcs == [] then []
    else
      TemplateShape(lcs, s, 0, 0);
      match GetTemplateSpec(lcs, s)
      case Bare(l) => l
      case Pair(t, _) => t
  }

  /** The template is no longer than `seq`, each token is the token of
      `seq` at that place or `'*'`, and when `lcs` is a subsequence of `seq`
      its constant tokens are those of `lcs`. */
  lemma OldGetTemplateShape(lcs: seq<string>, s: seq<string>)
    ensures |OldGetTemplate(lcs, s)| <= |s|
    ensures forall k :: 0 <= k < |OldGetTemplate(lcs, s)| ==> OldGetTemplate(lcs, s)[k] in {s[k], Wildcard}
    ensures IsSubseq(lcs, s) ==> Literals(OldGetTemplate(lcs, s)) == Literals(lcs)
  {
    if lcs != [] {
      TemplateShape(lcs, s, 0, 0);
      assert lcs[0..] == lcs && s[0..] == s;
      if IsSubseq(lcs, s) {
        TemplateKeepsLcs(lcs, s, 0, 0);
      }
    }
  }

  // ---------------------------------------------------------------------
  // remove_seq_from_prefix_tree

  /** `remove_seq_from_prefix_tree` as written: the first path token that
      names a child of the current node reads `matched_node.template`,
      which `Node` does not have; tokens that name no child are passed
      over, so the walk never leaves the root. */
  function OldRemovePath(nodes: seq<Node>, at: nat, path: seq<string>): (r: Result<seq<Node>>)
    requires at < |nodes|
    ensures r.Err? ==> r.error == AttributeError
    ensures r.Ok? ==> r.value == nodes
    decreases |path|
  {
    if path == [] then Ok(nodes)
    else if path[0] in nodes[at].children then Err(AttributeError)
    else OldRemovePath(nodes, at, path[1..])
  }

  /** The removal as written fails exactly when some path token names a
      child of the start node, and otherwise changes nothing. */
  lemma {:induction false} OldRemoveFails(nodes: seq<Node>, at: nat, path: seq<string>)
    requires at < |nodes|
    ensures OldRemovePath(nodes, at, path).Err? <==> exists k :: 0 <= k < |path| && path[k] in nodes[at].children
    ensures OldRemovePath(nodes, at, path).Err? ==> OldRemovePath(nodes, at, path).error == AttributeError
    ensures OldRemovePath(nodes, at, path).Ok? ==> OldRemovePath(nodes, at, path).value == nodes
    decreases |path|
  {
    if path != [] && path[0] !in nodes[at].children {
      OldRemoveFails(nodes, at, path[1..]);
      if exists k :: 0 <= k < |path| && path[k] in nodes[at].children {
        var k :| 0 <= k < |path| && path[k] in nodes[at].children;
        assert path[1..][k - 1] == path[k];
      }
    }
  }

  /** After a template's path goes in, removing it again fails: its first
      constant token now names a child of the root. */
  lemma OldRemoveAfterAdd(nodes: seq<Node>, path: seq<string>, c: nat)
    requires 0 < |nodes| && ChildrenOk(nodes) && path != []
    ensures OldRemovePath(AddPath(nodes, 0, path, c), 0, path) == Err(AttributeError)
  {
    var t := path[0];
    if t in nodes[0].children {
      var k := nodes[0].children[t];
      SetCountOk(nodes, k, nodes[k].count + 1);
      var next := SetCount(nodes, k, nodes[k].count + 1);
      AddPathFrame(next, k, path[1..], c);
    } else {
      GrowOk(nodes, 0, t);
      var next := Grow(nodes, 0, t);
      AddPathFrame(next, |nodes|, path[1..], c);
    }
  }
}
