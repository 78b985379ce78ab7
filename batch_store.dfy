/** The state one run of `LogParser.parse` (`src/pyspell/spell.py`) keeps
    across lines, the cluster list and the prefix tree, and the step it takes
    for each line. Lines arrive already tokenised: `tokens` is the split of
    the masked content, `orig` the split of the raw content (the regular
    expressions that produce them are not part of this model). */
module BatchStore {
  import opened Wrappers
  import opened Tokens
  import opened BatchLcs
  import opened BatchMatch
  import opened BatchTemplate
  import opened BatchTree

  /** The clusters and the tree after a line, and what `get_parameters`
      gave for it (or the exception the step raised). */
  datatype Outcome = Outcome(clusters: seq<Cluster>, nodes: seq<Node>, params: Result<seq<Param>>)

  /** The match the cheap matchers find for the constant tokens: the
      prefix tree first, then the loop over the clusters. */
  function QuickMatch(clusters: seq<Cluster>, nodes: seq<Node>, tau: Tau, tokens: seq<string>): (r: Option<nat>)
    requires Arena(nodes, |clusters|)
    ensures r.Some? ==> r.value < |clusters|
    ensures r.Some? ==>
      var t := clusters[r.value].template;
      |Literals(t)| * tau.den > tau.num * |Literals(tokens)| || LoopFits(t, Literals(tokens))
  {
    var constTokens := Literals(tokens);
    var m := PrefixTreeMatch(nodes, clusters, tau, 0, constTokens, 0);
    if m.Some? then m else SimpleLoopMatch(clusters, constTokens)
  }

  /** `get_template(lcs(tokens, template), template)`. */
  function Merged(tokens: seq<string>, template: seq<string>): TemplateOut {
    GetTemplateSpec(Traceback(tokens, template, |tokens|, |template|), template)
  }

  /** Cluster `c` takes template `nt` when it reads differently, its old
      path leaving the tree before the new one goes in. */
  function Retemplate(clusters: seq<Cluster>, nodes: seq<Node>, c: nat, nt: seq<string>): (r: (seq<Cluster>, seq<Node>))
    requires Arena(nodes, |clusters|) && c < |clusters|
    ensures |r.0| == |clusters| && Arena(r.1, |clusters|)
  {
    if JoinSpace(nt) != JoinSpace(clusters[c].template) then
      var removed := RemovePath(nodes, 0, Literals(clusters[c].template));
      RemovePathArena(nodes, 0, Literals(clusters[c].template), |clusters|);
      AddPathArena(removed, 0, Literals(nt), c, |clusters|);
      (clusters[c := clusters[c].(template := nt)], AddPath(removed, 0, Literals(nt), c))
    else (clusters, nodes)
  }

  /** The line joins cluster `c`, and `get_parameters` reads it against the
      cluster's template. */
  function Record(clusters: seq<Cluster>, nodes: seq<Node>, c: nat, tokens: seq<string>, orig: seq<string>, logId: int): Outcome
    requires c < |clusters|
  {
    Outcome(clusters[c := clusters[c].(logIds := clusters[c].logIds + [logId])], nodes,
            GetParametersSpec(clusters[c].template, tokens, orig))
  }

  /** The step of `parse` for one line. */
  function ProcessSpec(clusters: seq<Cluster>, nodes: seq<Node>, tau: Tau, tokens: seq<string>, orig: seq<string>, logId: int): Outcome
    requires Arena(nodes, |clusters|)
  {
    match QuickMatch(clusters, nodes, tau, tokens)
    case Some(c) => Record(clusters, nodes, c, tokens, orig, logId)
    case None =>
      match LcsMatchSpec(clusters, tokens, tau)
      case None =>
        Outcome(clusters + [Cluster(tokens, [logId])], AddPath(nodes, 0, Literals(tokens), |clusters|), Ok([]))
      case Some(c) =>
        match Merged(tokens, clusters[c].template)
        case Bare(_) => Outcome(clusters, nodes, Err(ValueError))
        case Pair(nt, _) =>
          var u := Retemplate(clusters, nodes, c, nt);
          Record(u.0, u.1, c, tokens, orig, logId)
  }

  /** The walk of `add_seq_to_prefix_tree` down the tree from the root:
      each token of `path` bumps the count of the child it names, or grows a
      new child with count 1; the node it ends on takes cluster `c` unless
      it already names one. */
  method AddSeq(tree: seq<Node>, path: seq<string>, c: nat) returns (nodes: seq<Node>)
    requires 0 < |tree| && ChildrenOk(tree)
    ensures nodes == AddPath(tree, 0, path, c)
  {
    nodes := tree;
    var parent: nat := 0;
    for i := 0 to |path|
      invariant parent < |nodes| && ChildrenOk(nodes)
      invariant AddPath(tree, 0, path, c) == AddPath(nodes, parent, path[i..], c)
    {
      AddPathUnfold(nodes, parent, path[i..], c);
      assert path[i..][1..] == path[i + 1..];
      var t := path[i];
      if t in nodes[parent].children {
        var k := nodes[parent].children[t];
        SetCountOk(nodes, k, nodes[k].count + 1);
        nodes := SetCount(nodes, k, nodes[k].count + 1);
        parent := k;
      } else {
        GrowOk(nodes, parent, t);
        var k := |nodes|;
        nodes := Grow(nodes, parent, t);
        parent := k;
      }
    }
    assert path[|path|..] == [];
    if nodes[parent].cluster.None? {
      nodes := nodes[parent := nodes[parent].(cluster := Some(c))];
    }
  }

  lemma AddPathUnfold(nodes: seq<Node>, at: nat, path: seq<string>, c: nat)
    requires at < |nodes| && ChildrenOk(nodes) && path != []
    ensures path[0] in nodes[at].children ==>
      var k := nodes[at].children[path[0]];
      at < k < |nodes| && ChildrenOk(SetCount(nodes, k, nodes[k].count + 1))
      && AddPath(nodes, at, path, c) == AddPath(SetCount(nodes, k, nodes[k].count + 1), k, path[1..], c)
    ensures path[0] !in nodes[at].children ==>
      ChildrenOk(Grow(nodes, at, path[0]))
      && AddPath(nodes, at, path, c) == AddPath(Grow(nodes, at, path[0]), |nodes|, path[1..], c)
  {
    if path[0] in nodes[at].children {
      var k := nodes[at].children[path[0]];
      SetCountOk(nodes, k, nodes[k].count + 1);
    } else {
      GrowOk(nodes, at, path[0]);
    }
  }

  /** The walk of `remove_seq_from_prefix_tree` down the tree from the
      root: a token that names no child is passed over; a child with count
      1 is cut off together with everything under it, which ends the walk;
      any other child loses one from its count and the walk goes on from
      it. */
  method RemoveSeq(tree: seq<Node>, path: seq<string>) returns (nodes: seq<Node>)
    requires 0 < |tree| && ChildrenOk(tree)
    ensures nodes == RemovePath(tree, 0, path)
  {
    nodes := tree;
    var parent: nat := 0;
    for i := 0 to |path|
      invariant parent < |nodes| && ChildrenOk(nodes)
      invariant RemovePath(tree, 0, path) == RemovePath(nodes, parent, path[i..])
    {
      RemovePathUnfold(nodes, parent, path[i..]);
      assert path[i..][1..] == path[i + 1..];
      var t := path[i];
      if t in nodes[parent].children {
        var k := nodes[parent].children[t];
        if nodes[k].count == 1 {
          nodes := nodes[parent := nodes[parent].(children := nodes[parent].children - {t})];
          return;
        }
        SetCountOk(nodes, k, nodes[k].count - 1);
        nodes := SetCount(nodes, k, nodes[k].count - 1);
        parent := k;
      }
    }
    assert path[|path|..] == [];
  }

  lemma RemovePathUnfold(nodes: seq<Node>, at: nat, path: seq<string>)
    requires at < |nodes| && ChildrenOk(nodes) && path != []
    ensures path[0] in nodes[at].children ==>
      var k := nodes[at].children[path[0]];
      at < k < |nodes|
      && (nodes[k].count == 1 ==>
            RemovePath(nodes, at, path) == nodes[at := nodes[at].(children := nodes[at].children - {path[0]})])
      && (nodes[k].count != 1 ==>
            ChildrenOk(SetCount(nodes, k, nodes[k].count - 1))
            && RemovePath(nodes, at, path) == RemovePath(SetCount(nodes, k, nodes[k].count - 1), k, path[1..]))
    ensures path[0] !in nodes[at].children ==> RemovePath(nodes, at, path) == RemovePath(nodes, at, path[1..])
  {
    if path[0] in nodes[at].children {
      var k := nodes[at].children[path[0]];
      SetCountOk(nodes, k, nodes[k].count - 1);
    }
  }

  /** The template `get_template` builds from the LCS of a line with a
      template: no longer than the old template, each token the old token
      at that place or `'*'`, and its constant tokens exactly the LCS. It
      is a bare list exactly when the LCS is empty. */
  lemma MergedShape(tokens: seq<string>, t: seq<string>)
    ensures Merged(tokens, t).Bare? <==> LcsLen(tokens, t) == 0
    ensures Merged(tokens, t).Pair? ==>
      var nt := Merged(tokens, t).template;
      |nt| <= |t| && (forall k :: 0 <= k < |nt| ==> nt[k] in {t[k], Wildcard})
      && Literals(nt) == Literals(Traceback(tokens, t, |tokens|, |t|))
  {
    var lcs := Traceback(tokens, t, |tokens|, |t|);
    if lcs != [] {
      LcsCommon(tokens, t);
      TemplateShape(lcs, t, 0, 0);
      assert lcs[0..] == lcs && t[0..] == t;
      TemplateKeepsLcs(lcs, t, 0, 0);
    }
  }

  /** The step keeps the tree an arena over the clusters, and adds at most
      one cluster. */
  lemma ProcessArena(clusters: seq<Cluster>, nodes: seq<Node>, tau: Tau, tokens: seq<string>, orig: seq<string>, logId: int)
    requires Arena(nodes, |clusters|)
    ensures var o := ProcessSpec(clusters, nodes, tau, tokens, orig, logId);
      Arena(o.nodes, |o.clusters|) && |clusters| <= |o.clusters| <= |clusters| + 1
  {
    var o := ProcessSpec(clusters, nodes, tau, tokens, orig, logId);
    if QuickMatch(clusters, nodes, tau, tokens).None? && LcsMatchSpec(clusters, tokens, tau).None? {
      ArenaWider(nodes, |clusters|);
      AddPathArena(nodes, 0, Literals(tokens), |clusters|, |clusters| + 1);
    }
  }

  /** `parse` raises ValueError for a line only when the line has no
      tokens, and then it has changed nothing. */
  lemma ProcessValueError(clusters: seq<Cluster>, nodes: seq<Node>, tau: Tau, tokens: seq<string>, orig: seq<string>, logId: int)
    requires Arena(nodes, |clusters|)
    ensures var o := ProcessSpec(clusters, nodes, tau, tokens, orig, logId);
      o.params == Err(ValueError) ==> tokens == [] && o.clusters == clusters && o.nodes == nodes
  {
    var q := QuickMatch(clusters, nodes, tau, tokens);
    if q.Some? {
      GetParametersFails(clusters[q.value].template, tokens, orig);
    } else {
      var m := LcsMatchSpec(clusters, tokens, tau);
      if m.Some? {
        var c := m.value;
        var t := clusters[c].template;
        MergedShape(tokens, t);
        LcsMatchRules(clusters, tokens, tau);
        if Merged(tokens, t).Bare? && tokens != [] {
          EligibleLcs(tokens, t);
        }
        if Merged(tokens, t).Pair? {
          var u := Retemplate(clusters, nodes, c, Merged(tokens, t).template);
          GetParametersFails(u.0[c].template, tokens, orig);
        }
      }
    }
  }

  /** A new cluster is made exactly when neither the prefix tree, nor the
      loop, nor the LCS search finds one; it holds the line's tokens as its
      template and the line as its only member, and the line has no
      parameters. */
  lemma ProcessNewCluster(clusters: seq<Cluster>, nodes: seq<Node>, tau: Tau, tokens: seq<string>, orig: seq<string>, logId: int)
    requires Arena(nodes, |clusters|)
    ensures var o := ProcessSpec(clusters, nodes, tau, tokens, orig, logId);
      |o.clusters| == |clusters| + 1
      <==> QuickMatch(clusters, nodes, tau, tokens).None? && LcsMatchSpec(clusters, tokens, tau).None?
    ensures var o := ProcessSpec(clusters, nodes, tau, tokens, orig, logId);
      |o.clusters| == |clusters| + 1 ==> o.clusters == clusters + [Cluster(tokens, [logId])] && o.params == Ok([])
  {
  }

  /** The cluster a line lands in: the one a cheap matcher finds, else the
      one the LCS search finds, else the new one at the end of the list. */
  function Target(clusters: seq<Cluster>, nodes: seq<Node>, tau: Tau, tokens: seq<string>): (c: nat)
    requires Arena(nodes, |clusters|)
    ensures c <= |clusters|
  {
    var q := QuickMatch(clusters, nodes, tau, tokens);
    if q.Some? then q.value
    else var m := LcsMatchSpec(clusters, tokens, tau);
    if m.Some? then m.value else |clusters|
  }

  /** Only the target cluster changes: it gains the line's id at the end of
      its list. */
  predicate FiledAt(clusters: seq<Cluster>, after: seq<Cluster>, c: nat, logId: int) {
    c < |after| && |clusters| <= |after|
    && after[c].logIds == (if c < |clusters| then clusters[c].logIds else []) + [logId]
    && forall j :: 0 <= j < |clusters| && j != c ==> after[j] == clusters[j]
  }

  lemma RecordFiles(clusters: seq<Cluster>, nodes: seq<Node>, c: nat, tokens: seq<string>, orig: seq<string>, logId: int)
    requires c < |clusters|
    ensures FiledAt(clusters, Record(clusters, nodes, c, tokens, orig, logId).clusters, c, logId)
  {
  }

  /** The line lands in its target cluster, which gains its id at the end
      of its list, and no other cluster changes. */
  lemma ProcessFilesLine(clusters: seq<Cluster>, nodes: seq<Node>, tau: Tau, tokens: seq<string>, orig: seq<string>, logId: int)
    requires Arena(nodes, |clusters|)
    ensures var o := ProcessSpec(clusters, nodes, tau, tokens, orig, logId);
      o.params != Err(ValueError) ==> FiledAt(clusters, o.clusters, Target(clusters, nodes, tau, tokens), logId)
  {
    var o := ProcessSpec(clusters, nodes, tau, tokens, orig, logId);
    var c := Target(clusters, nodes, tau, tokens);
    if QuickMatch(clusters, nodes, tau, tokens).Some? {
      RecordFiles(clusters, nodes, c, tokens, orig, logId);
    } else if LcsMatchSpec(clusters, tokens, tau).Some? {
      var t := clusters[c].template;
      if Merged(tokens, t).Pair? {
        var u := Retemplate(clusters, nodes, c, Merged(tokens, t).template);
        RecordFiles(u.0, u.1, c, tokens, orig, logId);
        assert forall j :: 0 <= j < |clusters| && j != c ==> u.0[j] == clusters[j];
        assert u.0[c].logIds == clusters[c].logIds;
      }
    }
  }

  /** When no cluster held the line's id before, exactly one holds it
      after. */
  lemma ProcessIdOnce(clusters: seq<Cluster>, nodes: seq<Node>, tau: Tau, tokens: seq<string>, orig: seq<string>, logId: int)
    requires Arena(nodes, |clusters|)
    requires forall j :: 0 <= j < |clusters| ==> logId !in clusters[j].logIds
    ensures var o := ProcessSpec(clusters, nodes, tau, tokens, orig, logId);
      o.params != Err(ValueError) ==> |set j | 0 <= j < |o.clusters| && logId in o.clusters[j].logIds| == 1
  {
    var o := ProcessSpec(clusters, nodes, tau, tokens, orig, logId);
    if o.params != Err(ValueError) {
      ProcessFilesLine(clusters, nodes, tau, tokens, orig, logId);
      ProcessArena(clusters, nodes, tau, tokens, orig, logId);
      var c := Target(clusters, nodes, tau, tokens);
      var holders := set j | 0 <= j < |o.clusters| && logId in o.clusters[j].logIds;
      assert c in holders;
      assert holders == {c};
    }
  }

  /** A line the LCS search places rewrites that cluster's template into
      the merged one: no longer than before, each token the old token at
      that place or `'*'`, its constant tokens the LCS of the line with the
      old template. */
  lemma ProcessMergesTemplate(clusters: seq<Cluster>, nodes: seq<Node>, tau: Tau, tokens: seq<string>, orig: seq<string>, logId: int)
    requires Arena(nodes, |clusters|) && tokens != []
    requires forall j, k :: 0 <= j < |clusters| && 0 <= k < |clusters[j].template| ==> IsWord(clusters[j].template[k])
    requires QuickMatch(clusters, nodes, tau, tokens).None? && LcsMatchSpec(clusters, tokens, tau).Some?
    ensures var o := ProcessSpec(clusters, nodes, tau, tokens, orig, logId);
      var c := LcsMatchSpec(clusters, tokens, tau).value;
      var t := clusters[c].template;
      var nt := o.clusters[c].template;
      |o.clusters| == |clusters| && |nt| <= |t| && (forall k :: 0 <= k < |nt| ==> nt[k] in {t[k], Wildcard})
      && Literals(nt) == Literals(Traceback(tokens, t, |tokens|, |t|))
      && o.clusters[c].logIds == clusters[c].logIds + [logId]
  {
    var c := LcsMatchSpec(clusters, tokens, tau).value;
    var t := clusters[c].template;
    MergedShape(tokens, t);
    LcsMatchRules(clusters, tokens, tau);
    EligibleLcs(tokens, t);
    var nt := Merged(tokens, t).template;
    LcsCommon(tokens, t);
    var lcs := Traceback(tokens, t, |tokens|, |t|);
    assert t != [];
    assert IsWord(Wildcard);
    assert forall k :: 0 <= k < |nt| ==> IsWord(nt[k]) by {
      forall k | 0 <= k < |nt| ensures IsWord(nt[k]) {
        assert nt[k] in {t[k], Wildcard};
      }
    }
    if JoinSpace(nt) == JoinSpace(t) {
      JoinStartsWithWord(t);
      SplitJoin(nt);
      SplitJoin(t);
    }
  }

  /** A match by the prefix tree or the loop leaves every template and the
      tree as they were. */
  lemma ProcessQuickKeeps(clusters: seq<Cluster>, nodes: seq<Node>, tau: Tau, tokens: seq<string>, orig: seq<string>, logId: int)
    requires Arena(nodes, |clusters|)
    requires QuickMatch(clusters, nodes, tau, tokens).Some?
    ensures var o := ProcessSpec(clusters, nodes, tau, tokens, orig, logId);
      |o.clusters| == |clusters| && o.nodes == nodes
      && forall j :: 0 <= j < |clusters| ==> o.clusters[j].template == clusters[j].template
  {
    var c := QuickMatch(clusters, nodes, tau, tokens).value;
    assert ProcessSpec(clusters, nodes, tau, tokens, orig, logId) == Record(clusters, nodes, c, tokens, orig, logId);
  }

  /** After an LCS match, a merged template that reads the same as the old
      one changes neither the templates nor the tree; one that reads
      differently replaces the cluster's template, and the tree loses the
      old constant path before it gains the new one. */
  lemma ProcessLcsRetemplates(clusters: seq<Cluster>, nodes: seq<Node>, tau: Tau, tokens: seq<string>, orig: seq<string>, logId: int)
    requires Arena(nodes, |clusters|)
    requires QuickMatch(clusters, nodes, tau, tokens).None? && LcsMatchSpec(clusters, tokens, tau).Some?
    requires Merged(tokens, clusters[LcsMatchSpec(clusters, tokens, tau).value].template).Pair?
    ensures var o := ProcessSpec(clusters, nodes, tau, tokens, orig, logId);
      var c := LcsMatchSpec(clusters, tokens, tau).value;
      var t := clusters[c].template;
      var nt := Merged(tokens, t).template;
      |o.clusters| == |clusters|
      && (forall j :: 0 <= j < |clusters| && j != c ==> o.clusters[j].template == clusters[j].template)
      && (JoinSpace(nt) == JoinSpace(t) ==> o.nodes == nodes && o.clusters[c].template == t)
      && (JoinSpace(nt) != JoinSpace(t) ==>
            o.clusters[c].template == nt
            && ChildrenOk(RemovePath(nodes, 0, Literals(t)))
            && o.nodes == AddPath(RemovePath(nodes, 0, Literals(t)), 0, Literals(nt), c))
  {
    var c := LcsMatchSpec(clusters, tokens, tau).value;
    var t := clusters[c].template;
    var nt := Merged(tokens, t).template;
    var u := Retemplate(clusters, nodes, c, nt);
    assert ProcessSpec(clusters, nodes, tau, tokens, orig, logId) == Record(u.0, u.1, c, tokens, orig, logId);
    RemovePathArena(nodes, 0, Literals(t), |clusters|);
  }

  /** A template is replaced only after an LCS match whose merged template
      reads differently from the old one. */
  lemma ProcessKeepsTemplate(clusters: seq<Cluster>, nodes: seq<Node>, tau: Tau, tokens: seq<string>, orig: seq<string>, logId: int)
    requires Arena(nodes, |clusters|)
    ensures var o := ProcessSpec(clusters, nodes, tau, tokens, orig, logId);
      forall j :: 0 <= j < |clusters| && o.clusters[j].template != clusters[j].template ==>
        QuickMatch(clusters, nodes, tau, tokens).None? && LcsMatchSpec(clusters, tokens, tau) == Some(j)
        && Merged(tokens, clusters[j].template).Pair?
        && JoinSpace(Merged(tokens, clusters[j].template).template) != JoinSpace(clusters[j].template)
  {
    var o := ProcessSpec(clusters, nodes, tau, tokens, orig, logId);
    if QuickMatch(clusters, nodes, tau, tokens).Some? {
      ProcessQuickKeeps(clusters, nodes, tau, tokens, orig, logId);
    } else if LcsMatchSpec(clusters, tokens, tau).Some? {
      var c := LcsMatchSpec(clusters, tokens, tau).value;
      if Merged(tokens, clusters[c].template).Pair? {
        ProcessLcsRetemplates(clusters, nodes, tau, tokens, orig, logId);
      } else {
        assert o.clusters == clusters;
      }
    } else {
      assert o.clusters == clusters + [Cluster(tokens, [logId])];
    }
  }

  lemma ArenaWider(nodes: seq<Node>, n: nat)
    requires Arena(nodes, n)
    ensures Arena(nodes, n + 1)
  {
  }

  /** The state of one run of `parse`. */
  class BatchParser {
    var clusters: seq<Cluster>
    var nodes: seq<Node>
    const tau: Tau

    ghost predicate Valid()
      reads this
    {
      Arena(nodes, |clusters|)
    }

    /** An empty cluster list and a tree that is only `Node()`. */
    constructor(tau: Tau)
      ensures Valid() && this.tau == tau && clusters == [] && nodes == [Root]
    {
      this.tau := tau;
      clusters := [];
      nodes := [Root];
    }

    /** `add_seq_to_prefix_tree(root, clusters[c])` */
    method AddSeqToPrefixTree(c: nat)
      requires Valid() && c < |clusters|
      modifies this
      ensures Valid() && clusters == old(clusters)
      ensures nodes == AddPath(old(nodes), 0, Literals(clusters[c].template), c)
    {
      var path := Literals(clusters[c].template);
      AddPathArena(nodes, 0, path, c, |clusters|);
      nodes := AddSeq(nodes, path, c);
    }

    /** `remove_seq_from_prefix_tree(root, clusters[c])` */
    method RemoveSeqFromPrefixTree(c: nat)
      requires Valid() && c < |clusters|
      modifies this
      ensures Valid() && clusters == old(clusters)
      ensures nodes == RemovePath(old(nodes), 0, Literals(clusters[c].template))
    {
      var path := Literals(clusters[c].template);
      RemovePathArena(nodes, 0, path, |clusters|);
      nodes := RemoveSeq(nodes, path);
    }

    /** The step of `parse` for one line with id `logId`. */
    method ProcessLine(tokens: seq<string>, orig: seq<string>, logId: int) returns (r: Result<seq<Param>>)
      requires Valid()
      modifies this
      ensures Valid()
      ensures Outcome(clusters, nodes, r) == ProcessSpec(old(clusters), old(nodes), tau, tokens, orig, logId)
    {
      var constTokens := Literals(tokens);
      var matched := PrefixTreeMatch(nodes, clusters, tau, 0, constTokens, 0);
      if matched.None? {
        matched := SimpleLoopMatch(clusters, constTokens);
        if matched.None? {
          matched := LcsMatch(clusters, tokens, tau);
          if matched.None? {
            clusters := clusters + [Cluster(tokens, [logId])];
            AddSeqToPrefixTree(|clusters| - 1);
            return Ok([]);
          }
          var c := matched.value;
          var lcs := Lcs(tokens, clusters[c].template);
          var out := GetTemplate(lcs, clusters[c].template);
          if out.Bare? {
            return Err(ValueError);
          }
          if JoinSpace(out.template) != JoinSpace(clusters[c].template) {
            RemoveSeqFromPrefixTree(c);
            clusters := clusters[c := clusters[c].(template := out.template)];
            AddSeqToPrefixTree(c);
          }
        }
      }
      var c := matched.value;
      clusters := clusters[c := clusters[c].(logIds := clusters[c].logIds + [logId])];
      r := GetParameters(clusters[c].template, tokens, orig);
    }
  }
}
