/** The two list matchers of the batch Spell parser (`LogParser` in
    `src/pyspell/spell.py`, and the same code in `src/spell.py`):
    `simple_loop_match` and `lcs_match`, over the list of clusters. */
module BatchMatch {
  import opened Wrappers
  import opened Tokens
  import opened BatchLcs

  /** `tau`, the fraction of a line an LCS must cover, as `num / den`. */
  datatype Ratio = Ratio(num: nat, den: nat)
  type Tau = r: Ratio | r.den > 0 witness Ratio(1, 2)

  /** An `LCSObject` of the batch parser: a template and the ids of the
      lines it holds. A cluster is named by its index in the cluster list,
      which only ever grows. */
  datatype Cluster = Cluster(template: seq<string>, logIds: seq<int>)

  // ---------------------------------------------------------------------
  // simple_loop_match

  /** The test `simple_loop_match` applies to one cluster: the template is
      not shorter than half of `s`, and each of its tokens is `'*'` or occurs
      in `s`. */
  predicate LoopFits(t: seq<string>, s: seq<string>) {
    !(2 * |t| < |s|) && forall w :: w in t ==> w in s || w == Wildcard
  }

  /** The scan of `simple_loop_match` from cluster `k` on. */
  function LoopFrom(clusters: seq<Cluster>, s: seq<string>, k: nat): (r: Option<nat>)
    requires k <= |clusters|
    ensures r.Some? ==> k <= r.value < |clusters| && LoopFits(clusters[r.value].template, s)
    decreases |clusters| - k
  {
    if k == |clusters| then None
    else if LoopFits(clusters[k].template, s) then Some(k)
    else LoopFrom(clusters, s, k + 1)
  }

  /** `simple_loop_match(clusters, seq)`: the index of the first cluster
      that fits, or None. */
  function SimpleLoopMatch(clusters: seq<Cluster>, s: seq<string>): (r: Option<nat>)
    ensures r.Some? ==> r.value < |clusters| && LoopFits(clusters[r.value].template, s)
  {
    LoopFrom(clusters, s, 0)
  }

  lemma {:induction false} LoopFromFirst(clusters: seq<Cluster>, s: seq<string>, k: nat)
    requires k <= |clusters|
    ensures LoopFrom(clusters, s, k).Some? ==>
      forall j :: k <= j < LoopFrom(clusters, s, k).value ==> !LoopFits(clusters[j].template, s)
    ensures LoopFrom(clusters, s, k).None? ==> forall j :: k <= j < |clusters| ==> !LoopFits(clusters[j].template, s)
    decreases |clusters| - k
  {
    if k < |clusters| && !LoopFits(clusters[k].template, s) {
      LoopFromFirst(clusters, s, k + 1);
    }
  }

  /** The cluster `simple_loop_match` returns is the first in list order
      that fits; None means no cluster fits. */
  lemma SimpleLoopMatchFirst(clusters: seq<Cluster>, s: seq<string>)
    ensures SimpleLoopMatch(clusters, s).Some? ==>
      forall j :: 0 <= j < SimpleLoopMatch(clusters, s).value ==> !LoopFits(clusters[j].template, s)
    ensures SimpleLoopMatch(clusters, s).None? <==> forall j :: 0 <= j < |clusters| ==> !LoopFits(clusters[j].template, s)
  {
    LoopFromFirst(clusters, s, 0);
  }

  // ---------------------------------------------------------------------
  // lcs_match

  /** `len(set(s) & set(t))`: the number of distinct tokens the two share. */
  function Overlap(s: seq<string>, t: seq<string>): nat {
    |(set w | w in s) * (set w | w in t)|
  }

  /** A cluster `lcs_match` does not skip: it shares at least half as many
      distinct tokens as `s` has tokens. */
  predicate Eligible(s: seq<string>, t: seq<string>) {
    !(2 * Overlap(s, t) < |s|)
  }

  /** `len(self.lcs(s, t))`. */
  function LcsLen(s: seq<string>, t: seq<string>): nat {
    |Traceback(s, t, |s|, |t|)|
  }

  /** What `lcs_match` sees of one cluster: nothing when it is skipped,
      else the LCS length and the template length. */
  datatype Cand = Skip | Cand(lcs: nat, size: nat)

  function CandOf(s: seq<string>, t: seq<string>): Cand {
    if Eligible(s, t) then Cand(LcsLen(s, t), |t|) else Skip
  }

  function Cands(clusters: seq<Cluster>, s: seq<string>): (r: seq<Cand>)
    ensures |r| == |clusters|
  {
    seq(|clusters|, k requires 0 <= k < |clusters| => CandOf(s, clusters[k].template))
  }

  /** The running `(max_len, max_cluster)` of `lcs_match`. */
  datatype Best = Best(maxLen: int, cluster: Option<nat>)

  /** `(max_len, max_cluster)` after the first `k` candidates: a candidate
      replaces the best so far when its LCS is strictly longer, or equally
      long with a strictly shorter template. */
  function BestUpTo(cs: seq<Cand>, k: nat): (r: Best)
    requires k <= |cs|
    ensures r.cluster.Some? ==> r.cluster.value < k && cs[r.cluster.value].Cand? && r.maxLen == cs[r.cluster.value].lcs
    ensures r.cluster.None? ==> r.maxLen == -1
  {
    if k == 0 then Best(-1, None)
    else
      var prev := BestUpTo(cs, k - 1);
      var c := cs[k - 1];
      if c.Skip? then prev
      else if c.lcs > prev.maxLen || (c.lcs == prev.maxLen && c.size < cs[prev.cluster.value].size) then
        Best(c.lcs, Some(k - 1))
      else prev
  }

  /** The final test of `lcs_match`: `max_len >= tau * len(seq)`. */
  function Choose(cs: seq<Cand>, tau: Tau, n: nat): (r: Option<nat>)
    ensures r.Some? ==> r.value < |cs|
  {
    var b := BestUpTo(cs, |cs|);
    if b.maxLen * tau.den >= tau.num * n then b.cluster else None
  }

  /** `lcs_match(clusters, seq)`, as a function of the clusters. */
  function LcsMatchSpec(clusters: seq<Cluster>, s: seq<string>, tau: Tau): (r: Option<nat>)
    ensures r.Some? ==> r.value < |clusters|
  {
    Choose(Cands(clusters, s), tau, |s|)
  }

  /** `lcs_match`, with its running maximum. */
  method LcsMatch(clusters: seq<Cluster>, s: seq<string>, tau: Tau) returns (r: Option<nat>)
    ensures r == LcsMatchSpec(clusters, s, tau)
  {
    ghost var cs := Cands(clusters, s);
    var maxLen := -1;
    var maxCluster: Option<nat> := None;
    var seqSet := set w | w in s;
    var n := |s|;
    for k := 0 to |clusters|
      invariant Best(maxLen, maxCluster) == BestUpTo(cs, k)
    {
      var t := clusters[k].template;
      var templateSet := set w | w in t;
      assert cs[k] == CandOf(s, t);
      if !(2 * |seqSet * templateSet| < n) {
        var lcs := Lcs(s, t);
        var nLcs := |lcs|;
        if nLcs > maxLen || (nLcs == maxLen && |t| < |clusters[maxCluster.value].template|) {
          maxLen, maxCluster := nLcs, Some(k);
        }
      }
    }
    if maxLen * tau.den >= tau.num * n {
      r := maxCluster;
    } else {
      r := None;
    }
  }

  /** Candidate `j` does not beat candidate `i`: its LCS is shorter, or as
      long with a longer template, or the same on both and later in the
      list. */
  predicate NoBetter(cs: seq<Cand>, i: nat, j: nat)
    requires i < |cs| && j < |cs| && cs[i].Cand? && cs[j].Cand?
  {
    cs[j].lcs < cs[i].lcs
    || (cs[j].lcs == cs[i].lcs && (cs[j].size > cs[i].size || (cs[j].size == cs[i].size && i <= j)))
  }

  lemma {:induction false} BestUpToIsBest(cs: seq<Cand>, k: nat)
    requires k <= |cs|
    ensures BestUpTo(cs, k).cluster.Some? ==>
      forall j :: 0 <= j < k && cs[j].Cand? ==> NoBetter(cs, BestUpTo(cs, k).cluster.value, j)
    ensures BestUpTo(cs, k).cluster.None? ==> forall j :: 0 <= j < k ==> cs[j].Skip?
  {
    if k > 0 {
      BestUpToIsBest(cs, k - 1);
    }
  }

  lemma MulMono(a: int, b: int, d: nat)
    requires a <= b
    ensures a * d <= b * d
  {
  }

  /** What `lcs_match` returns, over the candidates: a candidate no other
      candidate beats, whose LCS reaches `tau * n`; None exactly when no
      candidate reaches it. */
  lemma {:induction false} ChooseIsBest(cs: seq<Cand>, tau: Tau, n: nat)
    ensures Choose(cs, tau, n).Some? ==>
      var i := Choose(cs, tau, n).value;
      i < |cs| && cs[i].Cand? && cs[i].lcs * tau.den >= tau.num * n
      && forall j :: 0 <= j < |cs| && cs[j].Cand? ==> NoBetter(cs, i, j)
    ensures Choose(cs, tau, n).None? <==>
      forall j :: 0 <= j < |cs| && cs[j].Cand? ==> cs[j].lcs * tau.den < tau.num * n
  {
    var b := BestUpTo(cs, |cs|);
    BestUpToIsBest(cs, |cs|);
    if b.cluster.Some? && b.maxLen * tau.den < tau.num * n {
      forall j | 0 <= j < |cs| && cs[j].Cand?
        ensures cs[j].lcs * tau.den < tau.num * n
      {
        assert NoBetter(cs, b.cluster.value, j);
        MulMono(cs[j].lcs, b.maxLen, tau.den);
      }
    }
    if b.cluster.Some? && b.maxLen * tau.den >= tau.num * n {
      var i := b.cluster.value;
      assert cs[i].lcs * tau.den >= tau.num * n;
    }
  }

  /** The rules of `lcs_match`, stated over the clusters: the cluster it
      returns is not skipped by the shared-token filter, its LCS with `s`
      reaches `tau * len(s)`, and no eligible cluster has a longer LCS, or
      an equal one with a shorter template, or an equal one with an equally
      long template earlier in the list. It returns None exactly when no
      eligible cluster reaches `tau * len(s)`. */
  lemma LcsMatchRules(clusters: seq<Cluster>, s: seq<string>, tau: Tau)
    ensures LcsMatchSpec(clusters, s, tau).Some? ==>
      var c := LcsMatchSpec(clusters, s, tau).value;
      c < |clusters| && Eligible(s, clusters[c].template)
      && LcsLen(s, clusters[c].template) * tau.den >= tau.num * |s|
      && forall j :: 0 <= j < |clusters| && Eligible(s, clusters[j].template) ==>
           LcsLen(s, clusters[j].template) < LcsLen(s, clusters[c].template)
           || (LcsLen(s, clusters[j].template) == LcsLen(s, clusters[c].template)
               && (|clusters[j].template| > |clusters[c].template|
                   || (|clusters[j].template| == |clusters[c].template| && c <= j)))
    ensures LcsMatchSpec(clusters, s, tau).None? <==>
      forall j :: 0 <= j < |clusters| && Eligible(s, clusters[j].template) ==>
        LcsLen(s, clusters[j].template) * tau.den < tau.num * |s|
  {
    var cs := Cands(clusters, s);
    ChooseIsBest(cs, tau, |s|);
    assert forall j :: 0 <= j < |clusters| ==> cs[j] == CandOf(s, clusters[j].template);
  }

  /** A cluster `lcs_match` does not skip shares a token with a non-empty
      line, so its LCS with the line is not empty. */
  lemma EligibleLcs(s: seq<string>, t: seq<string>)
    requires Eligible(s, t) && |s| > 0
    ensures LcsLen(s, t) >= 1
  {
    var shared := (set w | w in s) * (set w | w in t);
    assert |shared| >= 1;
    var x :| x in shared;
    SharedTokenLcs(s, t, x);
  }
}
