/** The prefix tree of the batch parser (`Node`, `prefix_tree_match`,
    `add_seq_to_prefix_tree`, `remove_seq_from_prefix_tree` in
    `src/pyspell/spell.py`). The nodes live in an arena: node 0 is the root,
    a node's children map tokens to arena indices, and every child comes
    after its parent. A node deleted from its parent's children stays in the
    arena, unreachable. */
module BatchTree {
  import opened Wrappers
  import opened Tokens
  import opened BatchMatch

  /** A `Node`: its token, its reference count, the cluster that ends at
      it (an index into the cluster list), and its children. */
  datatype Node = Node(token: string, count: int, cluster: Option<nat>, children: map<string, nat>)

  /** `Node()`, the root of a fresh tree. */
  const Root: Node := Node("", 0, None, map[])

  /** Children are arena nodes after their parent. */
  predicate ChildrenOk(nodes: seq<Node>) {
    forall i, t :: 0 <= i < |nodes| && t in nodes[i].children ==> i < nodes[i].children[t] < |nodes|
  }

  /** Every node but the root is referenced at least once. */
  predicate CountsOk(nodes: seq<Node>) {
    forall i :: 1 <= i < |nodes| ==> nodes[i].count >= 1
  }

  /** Nodes name clusters among the first `n`. */
  predicate ClustersOk(nodes: seq<Node>, n: nat) {
    forall i :: 0 <= i < |nodes| && nodes[i].cluster.Some? ==> nodes[i].cluster.value < n
  }

  predicate Arena(nodes: seq<Node>, n: nat) {
    |nodes| >= 1 && ChildrenOk(nodes) && CountsOk(nodes) && ClustersOk(nodes, n)
  }

  // ---------------------------------------------------------------------
  // prefix_tree_match

  /** `prefix_tree_match(parent, seq, idx)`. The source's loop over
      `i in range(idx, n)` is the recursion on `idx` at the same parent: a
      child without a cluster ends the scan there by descending into it, a
      child whose cluster has too few constant tokens lets it go on. */
  function PrefixTreeMatch(nodes: seq<Node>, clusters: seq<Cluster>, tau: Tau, at: nat, s: seq<string>, idx: nat): (r: Option<nat>)
    requires at < |nodes| && ChildrenOk(nodes) && ClustersOk(nodes, |clusters|)
    ensures r.Some? ==> r.value < |clusters| && |Literals(clusters[r.value].template)| * tau.den > tau.num * |s|
    decreases |s| - idx
  {
    if idx >= |s| then None
    else if s[idx] in nodes[at].children then
      var child := nodes[at].children[s[idx]];
      match nodes[child].cluster
      case Some(c) =>
        if |Literals(clusters[c].template)| * tau.den > tau.num * |s| then Some(c)
        else PrefixTreeMatch(nodes, clusters, tau, at, s, idx + 1)
      case None => PrefixTreeMatch(nodes, clusters, tau, child, s, idx + 1)
    else PrefixTreeMatch(nodes, clusters, tau, at, s, idx + 1)
  }

  // ---------------------------------------------------------------------
  // The two updates a path makes.

  /** `node.count = x` */
  function SetCount(nodes: seq<Node>, k: nat, x: int): (r: seq<Node>)
    requires k < |nodes|
    ensures |r| == |nodes| && r[k].count == x && r[k].children == nodes[k].children && r[k].cluster == nodes[k].cluster
    ensures forall j :: 0 <= j < |nodes| && j != k ==> r[j] == nodes[j]
  {
    nodes[k := nodes[k].(count := x)]
  }

  /** `parent.children[t] = Node(t, 1)`: the new node goes at the end. */
  function Grow(nodes: seq<Node>, at: nat, t: string): (r: seq<Node>)
    requires at < |nodes|
    ensures |r| == |nodes| + 1 && r[|nodes|] == Node(t, 1, None, map[])
    ensures r[at] == nodes[at].(children := nodes[at].children[t := |nodes|])
    ensures forall j :: 0 <= j < |nodes| && j != at ==> r[j] == nodes[j]
  {
    nodes[at := nodes[at].(children := nodes[at].children[t := |nodes|])] + [Node(t, 1, None, map[])]
  }

  lemma SetCountOk(nodes: seq<Node>, k: nat, x: int)
    requires k < |nodes| && ChildrenOk(nodes)
    ensures ChildrenOk(SetCount(nodes, k, x))
  {
    var r := SetCount(nodes, k, x);
    forall i, t | 0 <= i < |r| && t in r[i].children
      ensures i < r[i].children[t] < |r|
    {
      assert r[i].children == nodes[i].children;
    }
  }

  lemma GrowOk(nodes: seq<Node>, at: nat, t: string)
    requires at < |nodes| && ChildrenOk(nodes)
    ensures ChildrenOk(Grow(nodes, at, t))
  {
    var r := Grow(nodes, at, t);
    forall i, u | 0 <= i < |r| && u in r[i].children
      ensures i < r[i].children[u] < |r|
    {
      if i != at && i < |nodes| {
        assert r[i].children == nodes[i].children;
      }
    }
  }

  // ---------------------------------------------------------------------
  // add_seq_to_prefix_tree

  /** The walk of `add_seq_to_prefix_tree` from node `at` along `path`: an
      existing child's count goes up by one, a missing child is created with
      count 1, and the node the path ends at takes cluster `c` unless it
      already names one. */
  function AddPath(nodes: seq<Node>, at: nat, path: seq<string>, c: nat): (r: seq<Node>)
    requires at < |nodes| && ChildrenOk(nodes)
    ensures |r| >= |nodes|
    decreases |path|
  {
    if path == [] then
      if nodes[at].cluster.None? then nodes[at := nodes[at].(cluster := Some(c))] else nodes
    else if path[0] in nodes[at].children then
      var k := nodes[at].children[path[0]];
      SetCountOk(nodes, k, nodes[k].count + 1);
      AddPath(SetCount(nodes, k, nodes[k].count + 1), k, path[1..], c)
    else
      GrowOk(nodes, at, path[0]);
      AddPath(Grow(nodes, at, path[0]), |nodes|, path[1..], c)
  }

  // ---------------------------------------------------------------------
  // remove_seq_from_prefix_tree

  /** The walk of `remove_seq_from_prefix_tree` from node `at` along `path`:
      a token that is not a child is skipped at the same node; a child with
      count 1 is deleted from its parent and the walk stops; any other child
      has its count lowered by one and the walk goes on from it. */
  function RemovePath(nodes: seq<Node>, at: nat, path: seq<string>): (r: seq<Node>)
    requires at < |nodes| && ChildrenOk(nodes)
    ensures |r| == |nodes|
    decreases |path|
  {
    if path == [] then nodes
    else if path[0] in nodes[at].children then
      var k := nodes[at].children[path[0]];
      if nodes[k].count == 1 then
        nodes[at := nodes[at].(children := nodes[at].children - {path[0]})]
      else
        SetCountOk(nodes, k, nodes[k].count - 1);
        RemovePath(SetCount(nodes, k, nodes[k].count - 1), k, path[1..])
    else RemovePath(nodes, at, path[1..])
  }

  // ---------------------------------------------------------------------
  // What the walks keep.

  /** Adding a path keeps the arena well formed. */
  lemma {:induction false} AddPathArena(nodes: seq<Node>, at: nat, path: seq<string>, c: nat, n: nat)
    requires at < |nodes| && Arena(nodes, n) && c < n
    ensures Arena(AddPath(nodes, at, path, c), n)
    decreases |path|
  {
    if path == [] {
      var r := AddPath(nodes, at, path, c);
      assert forall j :: 0 <= j < |r| ==> r[j].children == nodes[j].children && r[j].count == nodes[j].count;
    } else if path[0] in nodes[at].children {
      var k := nodes[at].children[path[0]];
      SetCountOk(nodes, k, nodes[k].count + 1);
      AddPathArena(SetCount(nodes, k, nodes[k].count + 1), k, path[1..], c, n);
    } else {
      GrowOk(nodes, at, path[0]);
      AddPathArena(Grow(nodes, at, path[0]), |nodes|, path[1..], c, n);
    }
  }

  /** Removing a path keeps the arena well formed. */
  lemma {:induction false} RemovePathArena(nodes: seq<Node>, at: nat, path: seq<string>, n: nat)
    requires at < |nodes| && Arena(nodes, n)
    ensures Arena(RemovePath(nodes, at, path), n)
    decreases |path|
  {
    if path != [] && path[0] in nodes[at].children {
      var k := nodes[at].children[path[0]];
      if nodes[k].count == 1 {
        var r := RemovePath(nodes, at, path);
        assert forall j :: 0 <= j < |r| ==> r[j].children.Keys <= nodes[j].children.Keys;
      } else {
        SetCountOk(nodes, k, nodes[k].count - 1);
        RemovePathArena(SetCount(nodes, k, nodes[k].count - 1), k, path[1..], n);
      }
    } else if path != [] {
      RemovePathArena(nodes, at, path[1..], n);
    }
  }

  /** Adding from node `at` changes no node before it, nor the count of
      `at` itself. */
  lemma {:induction false} AddPathFrame(nodes: seq<Node>, at: nat, path: seq<string>, c: nat)
    requires at < |nodes| && ChildrenOk(nodes)
    ensures forall j :: 0 <= j < at ==> AddPath(nodes, at, path, c)[j] == nodes[j]
    ensures AddPath(nodes, at, path, c)[at].count == nodes[at].count
    decreases |path|
  {
    if path != [] {
      if path[0] in nodes[at].children {
        var k := nodes[at].children[path[0]];
        SetCountOk(nodes, k, nodes[k].count + 1);
        AddPathFrame(SetCount(nodes, k, nodes[k].count + 1), k, path[1..], c);
      } else {
        GrowOk(nodes, at, path[0]);
        AddPathFrame(Grow(nodes, at, path[0]), |nodes|, path[1..], c);
      }
    }
  }

  lemma SetCountCommute(nodes: seq<Node>, j: nat, x: int, k: nat, y: int)
    requires j < |nodes| && k < |nodes| && j != k
    ensures SetCount(SetCount(nodes, j, x), k, y) == SetCount(SetCount(nodes, k, y), j, x)
  {
  }

  lemma GrowSetCount(nodes: seq<Node>, at: nat, t: string, j: nat, x: int)
    requires at < |nodes| && j < |nodes|
    ensures Grow(SetCount(nodes, j, x), at, t) == SetCount(Grow(nodes, at, t), j, x)
  {
    var l := Grow(SetCount(nodes, j, x), at, t);
    var r := SetCount(Grow(nodes, at, t), j, x);
    assert forall i :: 0 <= i < |l| ==> l[i] == r[i];
  }

  lemma SetClusterSetCount(nodes: seq<Node>, at: nat, c: nat, j: nat, x: int)
    requires at < |nodes| && j < |nodes|
    ensures SetCount(nodes, j, x)[at := SetCount(nodes, j, x)[at].(cluster := Some(c))]
         == SetCount(nodes[at := nodes[at].(cluster := Some(c))], j, x)
  {
  }

  /** The count of a node at or before `at` plays no part in adding from
      `at`. */
  lemma {:induction false} AddPathSetCount(nodes: seq<Node>, at: nat, path: seq<string>, c: nat, j: nat, x: int)
    requires at < |nodes| && ChildrenOk(nodes) && j <= at
    ensures ChildrenOk(SetCount(nodes, j, x))
    ensures AddPath(SetCount(nodes, j, x), at, path, c) == SetCount(AddPath(nodes, at, path, c), j, x)
    decreases |path|
  {
    SetCountOk(nodes, j, x);
    var m := SetCount(nodes, j, x);
    if path == [] {
      SetClusterSetCount(nodes, at, c, j, x);
    } else if path[0] in nodes[at].children {
      var k := nodes[at].children[path[0]];
      var y := nodes[k].count + 1;
      assert m[at].children == nodes[at].children && m[k] == nodes[k];
      SetCountOk(nodes, k, y);
      SetCountOk(m, k, y);
      assert AddPath(m, at, path, c) == AddPath(SetCount(m, k, y), k, path[1..], c);
      AddPathSetCount(SetCount(nodes, k, y), k, path[1..], c, j, x);
      SetCountCommute(nodes, j, x, k, y);
    } else {
      assert m[at].children == nodes[at].children;
      GrowOk(nodes, at, path[0]);
      GrowOk(m, at, path[0]);
      assert AddPath(m, at, path, c) == AddPath(Grow(m, at, path[0]), |nodes|, path[1..], c);
      AddPathSetCount(Grow(nodes, at, path[0]), |nodes|, path[1..], c, j, x);
      GrowSetCount(nodes, at, path[0], j, x);
    }
  }

  /** Adding a path and then removing it gives every node that was there
      before its count and its children back. */
  lemma {:induction false} AddThenRemove(nodes: seq<Node>, at: nat, path: seq<string>, c: nat)
    requires at < |nodes| && ChildrenOk(nodes) && CountsOk(nodes)
    ensures ChildrenOk(AddPath(nodes, at, path, c))
    ensures forall i :: 0 <= i < |nodes| ==>
      RemovePath(AddPath(nodes, at, path, c), at, path)[i].count == nodes[i].count
      && RemovePath(AddPath(nodes, at, path, c), at, path)[i].children == nodes[i].children
    decreases |path|, 1
  {
    AddPathArenaChildren(nodes, at, path, c);
    if path != [] && path[0] in nodes[at].children {
      AddThenRemoveOld(nodes, at, path, c);
    } else if path != [] {
      AddThenRemoveNew(nodes, at, path, c);
    }
  }

  /** The first token of the path is already a child: its count goes up and
      back down, and the rest of the path is undone below it. */
  lemma {:induction false} AddThenRemoveOld(nodes: seq<Node>, at: nat, path: seq<string>, c: nat)
    requires at < |nodes| && ChildrenOk(nodes) && CountsOk(nodes)
    requires path != [] && path[0] in nodes[at].children
    ensures ChildrenOk(AddPath(nodes, at, path, c))
    ensures forall i :: 0 <= i < |nodes| ==>
      RemovePath(AddPath(nodes, at, path, c), at, path)[i].count == nodes[i].count
      && RemovePath(AddPath(nodes, at, path, c), at, path)[i].children == nodes[i].children
    decreases |path|, 0
  {
    AddPathArenaChildren(nodes, at, path, c);
    var a := AddPath(nodes, at, path, c);
    var k := nodes[at].children[path[0]];
    var cnt := nodes[k].count;
    var a' := AddPath(nodes, k, path[1..], c);
    assert a == SetCount(a', k, cnt + 1) by {
      AddPathSetCount(nodes, k, path[1..], c, k, cnt + 1);
    }
    AddPathArenaChildren(nodes, k, path[1..], c);
    assert a[at] == nodes[at] && a[k].count == cnt + 1 && SetCount(a, k, cnt) == a' by {
      AddPathFrame(nodes, k, path[1..], c);
    }
    assert RemovePath(a, at, path) == RemovePath(a', k, path[1..]);
    AddThenRemove(nodes, k, path[1..], c);
  }

  /** The first token of the path is not a child yet: the node created for
      it is deleted again, and nothing before it was touched. */
  lemma AddThenRemoveNew(nodes: seq<Node>, at: nat, path: seq<string>, c: nat)
    requires at < |nodes| && ChildrenOk(nodes)
    requires path != [] && path[0] !in nodes[at].children
    ensures ChildrenOk(AddPath(nodes, at, path, c))
    ensures forall i :: 0 <= i < |nodes| ==>
      RemovePath(AddPath(nodes, at, path, c), at, path)[i].count == nodes[i].count
      && RemovePath(AddPath(nodes, at, path, c), at, path)[i].children == nodes[i].children
  {
    AddPathArenaChildren(nodes, at, path, c);
    var a := AddPath(nodes, at, path, c);
    var t := path[0];
    var g := Grow(nodes, at, t);
    GrowOk(nodes, at, t);
    assert a == AddPath(g, |nodes|, path[1..], c);
    AddPathFrame(g, |nodes|, path[1..], c);
    assert a[at] == g[at] && a[|nodes|].count == 1;
    var r := RemovePath(a, at, path);
    assert r == a[at := a[at].(children := a[at].children - {t})];
    assert g[at].children - {t} == nodes[at].children;
  }

  lemma {:induction false} AddPathArenaChildren(nodes: seq<Node>, at: nat, path: seq<string>, c: nat)
    requires at < |nodes| && ChildrenOk(nodes)
    ensures ChildrenOk(AddPath(nodes, at, path, c))
    decreases |path|
  {
    if path == [] {
      var r := AddPath(nodes, at, path, c);
      assert forall j :: 0 <= j < |r| ==> r[j].children == nodes[j].children;
    } else if path[0] in nodes[at].children {
      var k := nodes[at].children[path[0]];
      SetCountOk(nodes, k, nodes[k].count + 1);
      AddPathArenaChildren(SetCount(nodes, k, nodes[k].count + 1), k, path[1..], c);
    } else {
      GrowOk(nodes, at, path[0]);
      AddPathArenaChildren(Grow(nodes, at, path[0]), |nodes|, path[1..], c);
    }
  }
}
