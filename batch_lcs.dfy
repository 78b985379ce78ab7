/** `LogParser.lcs` of the batch parser: the longest common subsequence of
    two token lists, by a dynamic-programming table and a walk back through
    it. */
module BatchLcs {
  import opened Tokens

  function Max(x: nat, y: nat): nat {
    if x >= y then x else y
  }

  /** `lengths[i][j]`: the recurrence the table is filled by, for the
      prefixes `a[..i]` and `b[..j]`. */
  function L(a: seq<string>, b: seq<string>, i: nat, j: nat): nat
    requires i <= |a| && j <= |b|
  {
    if i == 0 || j == 0 then 0
    else if a[i - 1] == b[j - 1] then L(a, b, i - 1, j - 1) + 1
    else Max(L(a, b, i, j - 1), L(a, b, i - 1, j))
  }

  /** The walk back from `lengths[i][j]`: up while the value above is the
      same, else left while the value to the left is the same, else
      diagonally, taking the token. */
  function Traceback(a: seq<string>, b: seq<string>, i: nat, j: nat): seq<string>
    requires i <= |a| && j <= |b|
    decreases i + j
  {
    if i == 0 || j == 0 then []
    else if L(a, b, i, j) == L(a, b, i - 1, j) then Traceback(a, b, i - 1, j)
    else if L(a, b, i, j) == L(a, b, i, j - 1) then Traceback(a, b, i, j - 1)
    else Traceback(a, b, i - 1, j - 1) + [a[i - 1]]
  }

  /** Where the walk steps diagonally the two tokens are equal, so the
      `assert` of the source always holds. */
  lemma DiagonalEqual(a: seq<string>, b: seq<string>, i: nat, j: nat)
    requires 0 < i <= |a| && 0 < j <= |b|
    requires L(a, b, i, j) != L(a, b, i - 1, j) && L(a, b, i, j) != L(a, b, i, j - 1)
    ensures a[i - 1] == b[j - 1] && L(a, b, i, j) == L(a, b, i - 1, j - 1) + 1
  {
  }

  /** Rows `0 .. rows - 1` of the table hold the recurrence. */
  ghost predicate RowsDone(a: seq<string>, b: seq<string>, T: array2<nat>, rows: nat)
    reads T
    requires T.Length0 == |a| + 1 && T.Length1 == |b| + 1 && rows <= |a| + 1
  {
    forall p, q {:trigger T[p, q]} :: 0 <= p < rows && 0 <= q <= |b| ==> T[p, q] == L(a, b, p, q)
  }

  /** Columns `0 .. cols - 1` of row `p` hold the recurrence. */
  ghost predicate RowPrefixDone(a: seq<string>, b: seq<string>, T: array2<nat>, p: nat, cols: nat)
    reads T
    requires T.Length0 == |a| + 1 && T.Length1 == |b| + 1 && p <= |a| && cols <= |b| + 1
  {
    forall q :: 0 <= q < cols ==> T[p, q] == L(a, b, p, q)
  }

  /** Column 0 of the rows from `p` on still holds its initial 0. */
  ghost predicate ColumnZero(T: array2<nat>, p: nat)
    reads T
    requires T.Length1 > 0
  {
    forall r :: p <= r < T.Length0 ==> T[r, 0] == 0
  }

  /** `lcs(seq1, seq2)`, with the table as a two-dimensional array. */
  method Lcs(seq1: seq<string>, seq2: seq<string>) returns (result: seq<string>)
    ensures result == Traceback(seq1, seq2, |seq1|, |seq2|)
  {
    var lengths := new nat[|seq1| + 1, |seq2| + 1]((_, _) => 0);
    for i := 0 to |seq1|
      invariant RowsDone(seq1, seq2, lengths, i + 1)
      invariant ColumnZero(lengths, i + 1)
    {
      FillRow(seq1, seq2, lengths, i);
    }
    result := Walk(seq1, seq2, lengths);
  }

  lemma TableAt(a: seq<string>, b: seq<string>, T: array2<nat>, i: nat, j: nat)
    requires T.Length0 == |a| + 1 && T.Length1 == |b| + 1 && i <= |a| && j <= |b|
    requires RowsDone(a, b, T, |a| + 1)
    ensures T[i, j] == L(a, b, i, j)
  {
  }

  /** One step of the walk back, in terms of the recurrence. */
  lemma TracebackStep(a: seq<string>, b: seq<string>, i: nat, j: nat)
    requires 0 < i <= |a| && 0 < j <= |b|
    ensures L(a, b, i, j) == L(a, b, i - 1, j) ==> Traceback(a, b, i, j) == Traceback(a, b, i - 1, j)
    ensures L(a, b, i, j) != L(a, b, i - 1, j) && L(a, b, i, j) == L(a, b, i, j - 1) ==>
      Traceback(a, b, i, j) == Traceback(a, b, i, j - 1)
    ensures L(a, b, i, j) != L(a, b, i - 1, j) && L(a, b, i, j) != L(a, b, i, j - 1) ==>
      a[i - 1] == b[j - 1] && Traceback(a, b, i, j) == Traceback(a, b, i - 1, j - 1) + [a[i - 1]]
  {
    if L(a, b, i, j) != L(a, b, i - 1, j) && L(a, b, i, j) != L(a, b, i, j - 1) {
      DiagonalEqual(a, b, i, j);
    }
  }

  /** The walk back through the filled table. */
  method Walk(seq1: seq<string>, seq2: seq<string>, lengths: array2<nat>) returns (result: seq<string>)
    requires lengths.Length0 == |seq1| + 1 && lengths.Length1 == |seq2| + 1
    requires RowsDone(seq1, seq2, lengths, |seq1| + 1)
    ensures result == Traceback(seq1, seq2, |seq1|, |seq2|)
  {
    result := [];
    var i, j := |seq1|, |seq2|;
    while i != 0 && j != 0
      invariant 0 <= i <= |seq1| && 0 <= j <= |seq2|
      invariant Traceback(seq1, seq2, |seq1|, |seq2|) == Traceback(seq1, seq2, i, j) + result
      decreases i + j
    {
      var i', j', taken := WalkStep(seq1, seq2, lengths, i, j);
      assert Traceback(seq1, seq2, i', j') + taken + result == Traceback(seq1, seq2, i', j') + (taken + result);
      result := taken + result;
      i, j := i', j';
    }
  }

  /** One step back from `lengths[i][j]`: up, left, or diagonally taking
      the token. */
  method WalkStep(seq1: seq<string>, seq2: seq<string>, lengths: array2<nat>, i: nat, j: nat)
    returns (i': nat, j': nat, taken: seq<string>)
    requires lengths.Length0 == |seq1| + 1 && lengths.Length1 == |seq2| + 1
    requires RowsDone(seq1, seq2, lengths, |seq1| + 1)
    requires 0 < i <= |seq1| && 0 < j <= |seq2|
    ensures i' <= i && j' <= j && i' + j' < i + j
    ensures Traceback(seq1, seq2, i, j) == Traceback(seq1, seq2, i', j') + taken
  {
    TableAt(seq1, seq2, lengths, i, j);
    TableAt(seq1, seq2, lengths, i - 1, j);
    TableAt(seq1, seq2, lengths, i, j - 1);
    TracebackStep(seq1, seq2, i, j);
    if lengths[i, j] == lengths[i - 1, j] {
      i', j', taken := i - 1, j, [];
    } else if lengths[i, j] == lengths[i, j - 1] {
      i', j', taken := i, j - 1, [];
    } else {
      assert seq1[i - 1] == seq2[j - 1];
      i', j', taken := i - 1, j - 1, [seq1[i - 1]];
    }
  }

  /** Row `i + 1` of the table, from row `i`. */
  method FillRow(seq1: seq<string>, seq2: seq<string>, lengths: array2<nat>, i: nat)
    requires i < |seq1| && lengths.Length0 == |seq1| + 1 && lengths.Length1 == |seq2| + 1
    requires RowsDone(seq1, seq2, lengths, i + 1) && ColumnZero(lengths, i + 1)
    modifies lengths
    ensures RowsDone(seq1, seq2, lengths, i + 2) && ColumnZero(lengths, i + 2)
  {
    for j := 0 to |seq2|
      invariant RowsDone(seq1, seq2, lengths, i + 1) && ColumnZero(lengths, i + 2)
      invariant RowPrefixDone(seq1, seq2, lengths, i + 1, j + 1)
    {
      assert lengths[i, j] == L(seq1, seq2, i, j) && lengths[i, j + 1] == L(seq1, seq2, i, j + 1);
      assert lengths[i + 1, j] == L(seq1, seq2, i + 1, j);
      if seq1[i] == seq2[j] {
        lengths[i + 1, j + 1] := lengths[i, j] + 1;
      } else {
        lengths[i + 1, j + 1] := Max(lengths[i + 1, j], lengths[i, j + 1]);
      }
    }
  }

  // ---------------------------------------------------------------------
  // What the result is.

  lemma {:induction false} SubseqExtend(c: seq<string>, a: seq<string>, y: string)
    requires IsSubseq(c, a)
    ensures IsSubseq(c, a + [y])
    decreases |a|
  {
    if c != [] {
      var ay := a + [y];
      assert ay[0] == a[0] && ay[1..] == a[1..] + [y];
      if c[0] == a[0] {
        SubseqExtend(c[1..], a[1..], y);
      } else {
        SubseqExtend(c, a[1..], y);
      }
    }
  }

  lemma {:induction false} SubseqSnoc(c: seq<string>, a: seq<string>, x: string)
    requires IsSubseq(c, a)
    ensures IsSubseq(c + [x], a + [x])
    decreases |a|
  {
    var cx, ax := c + [x], a + [x];
    if a == [] {
      assert c == [] && cx == [x] && ax == [x];
      assert IsSubseq(cx[1..], ax[1..]);
    } else {
      assert ax[0] == a[0] && ax[1..] == a[1..] + [x];
      if c == [] {
        if x != a[0] {
          SubseqSnoc([], a[1..], x);
          assert cx == [] + [x];
        }
      } else {
        assert cx[0] == c[0] && cx[1..] == c[1..] + [x];
        if c[0] == a[0] {
          SubseqSnoc(c[1..], a[1..], x);
        } else {
          SubseqSnoc(c, a[1..], x);
        }
      }
    }
  }

  /** The walk back yields a common subsequence of the two prefixes, as long
      as the table entry it starts from. */
  lemma {:induction false} TracebackCommon(a: seq<string>, b: seq<string>, i: nat, j: nat)
    requires i <= |a| && j <= |b|
    ensures IsSubseq(Traceback(a, b, i, j), a[..i]) && IsSubseq(Traceback(a, b, i, j), b[..j])
    ensures |Traceback(a, b, i, j)| == L(a, b, i, j)
    decreases i + j
  {
    if i != 0 && j != 0 {
      assert a[..i] == a[..i - 1] + [a[i - 1]];
      assert b[..j] == b[..j - 1] + [b[j - 1]];
      if L(a, b, i, j) == L(a, b, i - 1, j) {
        TracebackCommon(a, b, i - 1, j);
        SubseqExtend(Traceback(a, b, i - 1, j), a[..i - 1], a[i - 1]);
      } else if L(a, b, i, j) == L(a, b, i, j - 1) {
        TracebackCommon(a, b, i, j - 1);
        SubseqExtend(Traceback(a, b, i, j - 1), b[..j - 1], b[j - 1]);
      } else {
        DiagonalEqual(a, b, i, j);
        TracebackCommon(a, b, i - 1, j - 1);
        SubseqSnoc(Traceback(a, b, i - 1, j - 1), a[..i - 1], a[i - 1]);
        SubseqSnoc(Traceback(a, b, i - 1, j - 1), b[..j - 1], b[j - 1]);
      }
    }
  }

  /** `lcs(seq1, seq2)` is a common subsequence of both, of length
      `lengths[len(seq1)][len(seq2)]`. */
  lemma LcsCommon(a: seq<string>, b: seq<string>)
    ensures IsSubseq(Traceback(a, b, |a|, |b|), a) && IsSubseq(Traceback(a, b, |a|, |b|), b)
    ensures |Traceback(a, b, |a|, |b|)| == L(a, b, |a|, |b|)
  {
    TracebackCommon(a, b, |a|, |b|);
    assert a[..|a|] == a && b[..|b|] == b;
  }

  /** One more row or column raises the table value by 0 or 1. */
  lemma {:induction false} LSteps(a: seq<string>, b: seq<string>, i: nat, j: nat)
    requires i <= |a| && j <= |b|
    ensures i > 0 ==> L(a, b, i - 1, j) <= L(a, b, i, j) <= L(a, b, i - 1, j) + 1
    ensures j > 0 ==> L(a, b, i, j - 1) <= L(a, b, i, j) <= L(a, b, i, j - 1) + 1
    decreases i + j
  {
    if i > 0 && j > 0 {
      LSteps(a, b, i - 1, j);
      LSteps(a, b, i, j - 1);
    }
  }

  /** A subsequence whose last token is not the last token of the list is
      a subsequence of the list without it. */
  lemma {:induction false} SubseqDropLast(c: seq<string>, a: seq<string>, y: string)
    requires c != [] && c[|c| - 1] != y && IsSubseq(c, a + [y])
    ensures IsSubseq(c, a)
    decreases |a|
  {
    var ay := a + [y];
    if a == [] {
      assert false;
    } else {
      assert ay[0] == a[0] && ay[1..] == a[1..] + [y];
      if c[0] == a[0] {
        if c[1..] != [] {
          SubseqDropLast(c[1..], a[1..], y);
        }
      } else {
        SubseqDropLast(c, a[1..], y);
      }
    }
  }

  /** Dropping the last token of both lists keeps the subsequence. */
  lemma {:induction false} SubseqDropBoth(c: seq<string>, a: seq<string>, x: string, y: string)
    requires IsSubseq(c + [x], a + [y])
    ensures IsSubseq(c, a)
    decreases |a|
  {
    var cx, ay := c + [x], a + [y];
    SubseqLength(cx, ay);
    if c != [] {
      assert cx[0] == c[0] && cx[1..] == c[1..] + [x];
      assert ay[0] == a[0] && ay[1..] == a[1..] + [y];
      if c[0] == a[0] {
        SubseqDropBoth(c[1..], a[1..], x, y);
      } else {
        SubseqDropBoth(c, a[1..], x, y);
      }
    }
  }

  /** No common subsequence of the prefixes is longer than `lengths[i][j]`. */
  lemma {:induction false} LLongest(a: seq<string>, b: seq<string>, i: nat, j: nat, c: seq<string>)
    requires i <= |a| && j <= |b|
    requires IsSubseq(c, a[..i]) && IsSubseq(c, b[..j])
    ensures |c| <= L(a, b, i, j)
    decreases i + j
  {
    SubseqLength(c, a[..i]);
    SubseqLength(c, b[..j]);
    if c != [] {
      var x := c[|c| - 1];
      var c' := c[..|c| - 1];
      assert c == c' + [x];
      assert a[..i] == a[..i - 1] + [a[i - 1]];
      assert b[..j] == b[..j - 1] + [b[j - 1]];
      LSteps(a, b, i, j);
      if x != a[i - 1] {
        SubseqDropLast(c, a[..i - 1], a[i - 1]);
        LLongest(a, b, i - 1, j, c);
      } else if x != b[j - 1] {
        SubseqDropLast(c, b[..j - 1], b[j - 1]);
        LLongest(a, b, i, j - 1, c);
      } else {
        SubseqDropBoth(c', a[..i - 1], x, a[i - 1]);
        SubseqDropBoth(c', b[..j - 1], x, b[j - 1]);
        LLongest(a, b, i - 1, j - 1, c');
      }
    }
  }

  /** `lcs(seq1, seq2)` is a longest common subsequence: every common
      subsequence of the two lists is at most as long. */
  lemma LcsLongest(a: seq<string>, b: seq<string>, c: seq<string>)
    requires IsSubseq(c, a) && IsSubseq(c, b)
    ensures |c| <= |Traceback(a, b, |a|, |b|)|
  {
    assert a[..|a|] == a && b[..|b|] == b;
    LLongest(a, b, |a|, |b|, c);
    LcsCommon(a, b);
  }

  lemma {:induction false} LPositive(a: seq<string>, b: seq<string>, i: nat, j: nat, p: nat, q: nat)
    requires p < i <= |a| && q < j <= |b| && a[p] == b[q]
    ensures L(a, b, i, j) >= 1
    decreases i + j
  {
    if a[i - 1] != b[j - 1] {
      if p < i - 1 {
        LPositive(a, b, i - 1, j, p, q);
      } else {
        LPositive(a, b, i, j - 1, p, q);
      }
    }
  }

  /** Two lists that share a token have a non-empty LCS. */
  lemma SharedTokenLcs(a: seq<string>, b: seq<string>, x: string)
    requires x in a && x in b
    ensures |Traceback(a, b, |a|, |b|)| >= 1
  {
    var p :| 0 <= p < |a| && a[p] == x;
    var q :| 0 <= q < |b| && b[q] == x;
    LPositive(a, b, |a|, |b|, p, q);
    LcsCommon(a, b);
  }
}
