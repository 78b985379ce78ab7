/** The candidate bookkeeping of `InvariantsMiner.fit`
    (`src/anomaly/invariants_miner.py`): item sets of event columns are
    sorted lists of column indices, `_join_set` builds the next layer of
    candidates, `_check_valid_candidates` asks whether every sub-item of a
    candidate survived, and `_prune` strikes combinations an invariant
    already found makes redundant. */
module InvariantsMiner {
  import opened Wrappers
  import opened Tokens

  // ---------------------------------------------------------------------
  // `sorted(list(set(...)))` of column indices

  predicate Increasing(s: seq<int>) {
    forall a, b :: 0 <= a < b < |s| ==> s[a] < s[b]
  }

  predicate NonDecreasing(s: seq<int>) {
    forall a, b :: 0 <= a < b < |s| ==> s[a] <= s[b]
  }

  function Elems(s: seq<int>): set<int> {
    set x | x in s
  }

  /** `x` put into an increasing list, unless it is there already. */
  function InsertNew(x: int, s: seq<int>): seq<int> {
    if s == [] then [x]
    else if x < s[0] then [x] + s
    else if x == s[0] then s
    else [s[0]] + InsertNew(x, s[1..])
  }

  /** `sorted(list(set(s)))`. */
  function SortDedup(s: seq<int>): seq<int> {
    if s == [] then [] else InsertNew(s[0], SortDedup(s[1..]))
  }

  lemma ConsIncreasing(h: int, t: seq<int>)
    requires Increasing(t) && forall y :: y in t ==> h < y
    ensures Increasing([h] + t)
  {
    var r := [h] + t;
    forall a, b | 0 <= a < b < |r| ensures r[a] < r[b] {
      assert r[b] == t[b - 1] && t[b - 1] in t;
      if a > 0 {
        assert r[a] == t[a - 1];
      }
    }
  }

  lemma IncreasingTail(s: seq<int>)
    requires Increasing(s) && s != []
    ensures Increasing(s[1..]) && forall y :: y in s[1..] ==> s[0] < y
  {
    forall a, b | 0 <= a < b < |s[1..]| ensures s[1..][a] < s[1..][b] {
      assert s[1..][a] == s[a + 1] && s[1..][b] == s[b + 1];
    }
    forall y | y in s[1..] ensures s[0] < y {
      var k :| 0 <= k < |s[1..]| && s[1..][k] == y;
      assert s[k + 1] == y;
    }
  }

  lemma {:induction false} InsertNewFacts(x: int, s: seq<int>)
    requires Increasing(s)
    ensures Increasing(InsertNew(x, s))
    ensures forall y :: y in InsertNew(x, s) <==> y == x || y in s
  {
    if s != [] {
      IncreasingTail(s);
      assert forall y :: y in s <==> y == s[0] || y in s[1..] by {
        assert s == [s[0]] + s[1..];
      }
      if x < s[0] {
        ConsIncreasing(x, s);
      } else if x > s[0] {
        InsertNewFacts(x, s[1..]);
        ConsIncreasing(s[0], InsertNew(x, s[1..]));
      }
    }
  }

  /** `SortDedup(s)` is increasing and holds exactly the elements of `s`. */
  lemma {:induction false} SortDedupFacts(s: seq<int>)
    ensures Increasing(SortDedup(s)) && forall y :: y in SortDedup(s) <==> y in s
  {
    if s != [] {
      SortDedupFacts(s[1..]);
      InsertNewFacts(s[0], SortDedup(s[1..]));
      assert forall y :: y in s <==> y == s[0] || y in s[1..] by {
        assert s == [s[0]] + s[1..];
      }
    }
  }

  lemma HeadIn(s: seq<int>)
    ensures s != [] ==> s[0] in s
  {
  }

  /** An increasing list is fixed by its elements: it is the one
      `sorted(list(...))` gives. */
  lemma {:induction false} IncreasingUnique(a: seq<int>, b: seq<int>)
    requires Increasing(a) && Increasing(b) && forall y :: y in a <==> y in b
    ensures a == b
    decreases |a|
  {
    HeadIn(a);
    HeadIn(b);
    if a != [] && b != [] {
      IncreasingTail(a);
      IncreasingTail(b);
      assert a[0] in b && b[0] in a;
      assert a[0] == b[0];
      assert forall y :: y in a <==> y == a[0] || y in a[1..] by {
        assert a == [a[0]] + a[1..];
      }
      assert forall y :: y in b <==> y == b[0] || y in b[1..] by {
        assert b == [b[0]] + b[1..];
      }
      IncreasingUnique(a[1..], b[1..]);
      assert a == [a[0]] + a[1..] && b == [b[0]] + b[1..];
    }
  }

  /** An increasing list has as many elements as its set. */
  lemma {:induction false} IncreasingCard(s: seq<int>)
    requires Increasing(s)
    ensures |Elems(s)| == |s|
  {
    if s != [] {
      IncreasingTail(s);
      IncreasingCard(s[1..]);
      assert s == [s[0]] + s[1..];
      assert Elems(s) == {s[0]} + Elems(s[1..]);
    }
  }

  // ---------------------------------------------------------------------
  // Lists of item sets, in Python's list order

  /** Python's `<` on two lists of integers. */
  predicate LexLt(a: seq<int>, b: seq<int>) {
    if a == [] then b != []
    else if b == [] then false
    else a[0] < b[0] || (a[0] == b[0] && LexLt(a[1..], b[1..]))
  }

  lemma {:induction false} LexTotal(a: seq<int>, b: seq<int>)
    ensures a != b ==> LexLt(a, b) || LexLt(b, a)
  {
    if a != [] && b != [] && a[0] == b[0] {
      LexTotal(a[1..], b[1..]);
      if a[1..] == b[1..] {
        assert a == [a[0]] + a[1..] && b == [b[0]] + b[1..];
      }
    }
  }

  lemma {:induction false} LexAsym(a: seq<int>, b: seq<int>)
    ensures LexLt(a, b) ==> !LexLt(b, a) && a != b
  {
    if a != [] && b != [] && a[0] == b[0] {
      LexAsym(a[1..], b[1..]);
    }
  }

  lemma {:induction false} LexTrans(a: seq<int>, b: seq<int>, c: seq<int>)
    requires LexLt(a, b) && LexLt(b, c)
    ensures LexLt(a, c)
  {
    if a != [] && a[0] == b[0] && b[0] == c[0] {
      LexTrans(a[1..], b[1..], c[1..]);
    }
  }

  /** Each list comes strictly before the next. */
  predicate LexSorted(s: seq<seq<int>>) {
    forall k :: 0 <= k < |s| - 1 ==> LexLt(s[k], s[k + 1])
  }

  predicate Distinct(s: seq<seq<int>>) {
    forall a, b :: 0 <= a < b < |s| ==> s[a] != s[b]
  }

  function InsertLex(x: seq<int>, s: seq<seq<int>>): seq<seq<int>> {
    if s == [] then [x]
    else if LexLt(x, s[0]) then [x] + s
    else [s[0]] + InsertLex(x, s[1..])
  }

  /** `sorted(s)` for a list of integer lists. */
  function SortLists(s: seq<seq<int>>): seq<seq<int>> {
    if s == [] then [] else InsertLex(s[0], SortLists(s[1..]))
  }

  lemma ConsLexSorted(h: seq<int>, t: seq<seq<int>>)
    requires LexSorted(t) && (t != [] ==> LexLt(h, t[0]))
    ensures LexSorted([h] + t)
  {
    var r := [h] + t;
    forall k | 0 <= k < |r| - 1 ensures LexLt(r[k], r[k + 1]) {
      assert r[k + 1] == t[k];
      if k > 0 {
        assert r[k] == t[k - 1];
      }
    }
  }

  lemma LexSortedTail(s: seq<seq<int>>)
    requires LexSorted(s) && s != []
    ensures LexSorted(s[1..])
  {
    forall k | 0 <= k < |s[1..]| - 1 ensures LexLt(s[1..][k], s[1..][k + 1]) {
      assert s[1..][k] == s[k + 1] && s[1..][k + 1] == s[k + 2];
    }
  }

  lemma {:induction false} InsertLexFacts(x: seq<int>, s: seq<seq<int>>)
    requires LexSorted(s) && x !in s
    ensures LexSorted(InsertLex(x, s)) && multiset(InsertLex(x, s)) == multiset(s) + multiset{x}
    ensures s != [] ==> InsertLex(x, s)[0] == x || InsertLex(x, s)[0] == s[0]
  {
    if s == [] {
    } else if LexLt(x, s[0]) {
      ConsLexSorted(x, s);
    } else {
      assert x != s[0];
      LexTotal(x, s[0]);
      assert s == [s[0]] + s[1..];
      LexSortedTail(s);
      InsertLexFacts(x, s[1..]);
      var rest := InsertLex(x, s[1..]);
      assert rest != [] ==> LexLt(s[0], rest[0]) by {
        if |s| > 1 {
          assert s[1..][0] == s[1];
        }
      }
      ConsLexSorted(s[0], rest);
      assert InsertLex(x, s) == [s[0]] + rest;
    }
  }

  /** `SortLists` orders a list of distinct lists without losing or adding
      any. */
  lemma {:induction false} SortListsFacts(s: seq<seq<int>>)
    requires Distinct(s)
    ensures LexSorted(SortLists(s)) && multiset(SortLists(s)) == multiset(s)
  {
    if s != [] {
      assert Distinct(s[1..]) by {
        forall a, b | 0 <= a < b < |s[1..]| ensures s[1..][a] != s[1..][b] {
          assert s[1..][a] == s[a + 1] && s[1..][b] == s[b + 1];
        }
      }
      SortListsFacts(s[1..]);
      assert s == [s[0]] + s[1..];
      assert s[0] !in s[1..] by {
        forall k | 0 <= k < |s[1..]| ensures s[1..][k] != s[0] {
          assert s[1..][k] == s[k + 1];
        }
      }
      assert s[0] !in multiset(SortLists(s[1..]));
      InsertLexFacts(s[0], SortLists(s[1..]));
    }
  }

  /** In a list sorted this way every list comes strictly before every
      later one. */
  lemma {:induction false} LexSortedPairs(s: seq<seq<int>>)
    requires LexSorted(s)
    ensures forall a, b :: 0 <= a < b < |s| ==> LexLt(s[a], s[b])
  {
    forall a, b | 0 <= a < b < |s| ensures LexLt(s[a], s[b]) {
      var k := a + 1;
      while k < b
        invariant a < k <= b && LexLt(s[a], s[k])
      {
        LexTrans(s[a], s[k], s[k + 1]);
        k := k + 1;
      }
    }
  }

  // ---------------------------------------------------------------------
  // _join_set

  /** `sorted(list(set(item_list[p]).union(set(item_list[q]))))`. */
  function Joined(items: seq<seq<int>>, p: nat, q: nat): seq<int>
    requires p < |items| && q < |items|
  {
    SortDedup(items[p] + items[q])
  }

  /** `len(i_set.union(j_set)) == length`. */
  predicate Fits(items: seq<seq<int>>, p: nat, q: nat, length: int)
    requires p < |items| && q < |items|
  {
    |Elems(items[p]) + Elems(items[q])| == length
  }

  /** A joined item is a sorted list of distinct columns, exactly those of
      the two items, and of the asked length when the pair fits. */
  lemma JoinedShape(items: seq<seq<int>>, p: nat, q: nat, length: int)
    requires p < |items| && q < |items|
    ensures Increasing(Joined(items, p, q))
    ensures Elems(Joined(items, p, q)) == Elems(items[p]) + Elems(items[q])
    ensures Fits(items, p, q, length) ==> |Joined(items, p, q)| == length
  {
    var s := items[p] + items[q];
    SortDedupFacts(s);
    forall y ensures y in Elems(Joined(items, p, q)) <==> y in Elems(items[p]) + Elems(items[q]) {
      assert y in s <==> y in items[p] || y in items[q];
    }
    IncreasingCard(Joined(items, p, q));
  }

  /** Every list gathered so far is the sorted union of a pair that fits. */
  ghost predicate Sound(items: seq<seq<int>>, length: int, out: seq<seq<int>>) {
    forall x :: x in out ==>
      exists p, q :: 0 <= p < q < |items| && Fits(items, p, q, length) && x == Joined(items, p, q)
  }

  /** Every fitting pair `p < q` with `p < i` has been gathered. */
  ghost predicate Covered(items: seq<seq<int>>, length: int, out: seq<seq<int>>, i: nat) {
    forall p, q :: 0 <= p < i && p < q < |items| && Fits(items, p, q, length) ==> Joined(items, p, q) in out
  }

  /** Every fitting pair `(i, q)` with `q < j` has been gathered. */
  ghost predicate RowCovered(items: seq<seq<int>>, length: int, out: seq<seq<int>>, i: nat, j: nat)
    requires i < |items|
  {
    forall q :: i < q < j && q < |items| && Fits(items, i, q, length) ==> Joined(items, i, q) in out
  }

  /** `_join_set(item_list, length)`: every pair `p < q` whose union has
      `length` columns gives its sorted union, once, and the result is in
      Python's list order. */
  method JoinSet(items: seq<seq<int>>, length: int) returns (r: seq<seq<int>>)
    ensures LexSorted(r)
    ensures forall x :: x in r ==>
      exists p, q :: 0 <= p < q < |items| && Fits(items, p, q, length) && x == Joined(items, p, q)
    ensures forall p, q :: 0 <= p < q < |items| && Fits(items, p, q, length) ==> Joined(items, p, q) in r
  {
    var out: seq<seq<int>> := [];
    var n := |items|;
    for i := 0 to n
      invariant Distinct(out) && Sound(items, length, out) && Covered(items, length, out, i)
    {
      out := JoinRow(items, length, i, out);
    }
    SortListsFacts(out);
    r := SortLists(out);
    assert forall x :: x in r <==> x in out by {
      forall x ensures x in r <==> x in out {
        assert x in r <==> x in multiset(r);
        assert x in out <==> x in multiset(out);
      }
    }
  }

  /** The inner loop of `_join_set`, over the partners `j > i` of item `i`. */
  method JoinRow(items: seq<seq<int>>, length: int, i: nat, out0: seq<seq<int>>) returns (out: seq<seq<int>>)
    requires i < |items|
    requires Distinct(out0) && Sound(items, length, out0) && Covered(items, length, out0, i)
    ensures Distinct(out) && Sound(items, length, out) && Covered(items, length, out, i + 1)
  {
    out := out0;
    var n := |items|;
    for j := i + 1 to n
      invariant Distinct(out) && Sound(items, length, out)
      invariant Covered(items, length, out, i) && RowCovered(items, length, out, i, j)
    {
      var union := Elems(items[i]) + Elems(items[j]);
      if |union| == length {
        var joined := SortDedup(items[i] + items[j]);
        if joined !in out {
          assert Fits(items, i, j, length) && joined == Joined(items, i, j);
          out := out + [joined];
        }
      }
    }
  }

  // ---------------------------------------------------------------------
  // _check_valid_candidates

  function Prepend(x: int, cs: seq<seq<int>>): (r: seq<seq<int>>)
    ensures |r| == |cs|
  {
    seq(|cs|, i requires 0 <= i < |cs| => [x] + cs[i])
  }

  lemma PrependMeaning(x: int, cs: seq<seq<int>>, c: seq<int>)
    ensures c in Prepend(x, cs) <==> c != [] && c[0] == x && c[1..] in cs
  {
    if c in Prepend(x, cs) {
      var i :| 0 <= i < |cs| && Prepend(x, cs)[i] == c;
      assert c[1..] == cs[i];
    }
    if c != [] && c[0] == x && c[1..] in cs {
      var i :| 0 <= i < |cs| && cs[i] == c[1..];
      assert Prepend(x, cs)[i] == c;
    }
  }

  /** `itertools.combinations(s, k)`, each combination as a list. */
  function Combos(s: seq<int>, k: nat): seq<seq<int>>
    decreases |s|
  {
    if k == 0 then [[]]
    else if |s| < k then []
    else Prepend(s[0], Combos(s[1..], k - 1)) + Combos(s[1..], k)
  }

  lemma {:induction false} SubseqDropHead(c: seq<int>, s: seq<int>)
    requires IsSubseq(c, s) && c != []
    ensures IsSubseq(c[1..], s)
    decreases |s|
  {
    if c[0] == s[0] {
      if c[1..] != [] {
        SubseqDropHead(c[1..], s[1..]);
        assert c[1..][0] == c[1];
      }
    } else {
      SubseqDropHead(c, s[1..]);
      if c[1..] != [] && c[1] == s[0] {
        SubseqDropHead(c[1..], s[1..]);
      }
    }
  }

  /** The combinations of size `k` are exactly the lists of length `k`
      that occur in `s` in order. */
  lemma {:induction false} CombosMeaning(s: seq<int>, k: nat, c: seq<int>)
    ensures c in Combos(s, k) <==> |c| == k && IsSubseq(c, s)
    decreases |s|
  {
    if k == 0 {
    } else if |s| < k {
      if IsSubseq(c, s) {
        SubseqLength(c, s);
      }
    } else {
      var first := Prepend(s[0], Combos(s[1..], k - 1));
      CombosMeaning(s[1..], k, c);
      if c != [] {
        CombosMeaning(s[1..], k - 1, c[1..]);
        assert c == [c[0]] + c[1..];
        PrependMeaning(s[0], Combos(s[1..], k - 1), c);
        if c[0] == s[0] && IsSubseq(c, s[1..]) {
          SubseqDropHead(c, s[1..]);
        }
      } else {
        PrependMeaning(s[0], Combos(s[1..], k - 1), c);
      }
    }
  }

  /** `x` put into a non-decreasing list, after its equals. */
  function InsertInt(x: int, s: seq<int>): seq<int> {
    if s == [] || x < s[0] then [x] + s else [s[0]] + InsertInt(x, s[1..])
  }

  /** `sorted(list(c))`. */
  function SortInts(c: seq<int>): seq<int> {
    if c == [] then [] else InsertInt(c[0], SortInts(c[1..]))
  }

  lemma ConsNonDecreasing(h: int, t: seq<int>)
    requires NonDecreasing(t) && forall y :: y in t ==> h <= y
    ensures NonDecreasing([h] + t)
  {
    var r := [h] + t;
    forall a, b | 0 <= a < b < |r| ensures r[a] <= r[b] {
      assert r[b] == t[b - 1] && t[b - 1] in t;
      if a > 0 {
        assert r[a] == t[a - 1];
      }
    }
  }

  lemma NonDecreasingTail(s: seq<int>)
    requires NonDecreasing(s) && s != []
    ensures NonDecreasing(s[1..]) && forall y :: y in s[1..] ==> s[0] <= y
  {
    forall a, b | 0 <= a < b < |s[1..]| ensures s[1..][a] <= s[1..][b] {
      assert s[1..][a] == s[a + 1] && s[1..][b] == s[b + 1];
    }
    forall y | y in s[1..] ensures s[0] <= y {
      var k :| 0 <= k < |s[1..]| && s[1..][k] == y;
      assert s[k + 1] == y;
    }
  }

  lemma {:induction false} InsertIntFacts(x: int, s: seq<int>)
    requires NonDecreasing(s)
    ensures NonDecreasing(InsertInt(x, s)) && multiset(InsertInt(x, s)) == multiset(s) + multiset{x}
  {
    if s != [] {
      NonDecreasingTail(s);
      assert s == [s[0]] + s[1..];
      if x < s[0] {
        ConsNonDecreasing(x, s);
      } else {
        var rest := InsertInt(x, s[1..]);
        InsertIntFacts(x, s[1..]);
        forall y | y in rest ensures s[0] <= y {
          assert y in multiset(rest);
        }
        ConsNonDecreasing(s[0], rest);
      }
    }
  }

  /** `SortInts` is a sorted permutation of its input, and leaves a list
      that is already increasing as it is. */
  lemma {:induction false} SortIntsFacts(c: seq<int>)
    ensures NonDecreasing(SortInts(c)) && multiset(SortInts(c)) == multiset(c)
  {
    if c != [] {
      SortIntsFacts(c[1..]);
      InsertIntFacts(c[0], SortInts(c[1..]));
      assert c == [c[0]] + c[1..];
    }
  }

  /** `sorted` leaves an increasing list as it is. */
  lemma {:induction false} SortIntsIncreasing(c: seq<int>)
    requires Increasing(c)
    ensures SortInts(c) == c
  {
    if c != [] {
      IncreasingTail(c);
      SortIntsIncreasing(c[1..]);
      if c[1..] != [] {
        assert c[1..][0] in c[1..];
      }
      assert InsertInt(c[0], c[1..]) == [c[0]] + c[1..];
      assert c == [c[0]] + c[1..];
    }
  }

  /** The loop of `_check_valid_candidates`: false at the first
      combination whose sorted form is missing from `space`. */
  function AllIn(cs: seq<seq<int>>, space: seq<seq<int>>): bool {
    if cs == [] then true
    else if SortInts(cs[0]) !in space then false
    else AllIn(cs[1..], space)
  }

  /** `_check_valid_candidates(item, length, search_space)`;
      `combinations` raises ValueError for a negative size. */
  function CheckValidCandidates(item: seq<int>, length: int, space: seq<seq<int>>): (r: Result<bool>)
    ensures r.Err? <==> length < 1
    ensures length >= 1 ==> r == Ok(SubItemsIn(item, length - 1, space))
  {
    if length < 1 then Err(ValueError)
    else
      AllInCombos(item, length - 1, space);
      Ok(AllIn(Combos(item, length - 1), space))
  }

  lemma {:induction false} AllInMeaning(cs: seq<seq<int>>, space: seq<seq<int>>)
    ensures AllIn(cs, space) <==> forall c :: c in cs ==> SortInts(c) in space
  {
    if cs != [] {
      AllInMeaning(cs[1..], space);
      assert forall c :: c in cs <==> c == cs[0] || c in cs[1..] by {
        assert cs == [cs[0]] + cs[1..];
      }
      if AllIn(cs, space) {
        forall c | c in cs ensures SortInts(c) in space {
          if c != cs[0] {
            assert c in cs[1..];
          }
        }
      }
      if forall c :: c in cs ==> SortInts(c) in space {
        assert SortInts(cs[0]) in space;
        forall c | c in cs[1..] ensures SortInts(c) in space {
          assert c in cs;
        }
      }
    }
  }

  /** Every list of `k` columns of `item`, taken in order and sorted, is
      in the search space. */
  ghost predicate SubItemsIn(item: seq<int>, k: nat, space: seq<seq<int>>) {
    forall c :: |c| == k && IsSubseq(c, item) ==> SortInts(c) in space
  }

  lemma CombosCover(item: seq<int>, k: nat, space: seq<seq<int>>)
    ensures (forall c :: c in Combos(item, k) ==> SortInts(c) in space) <==> SubItemsIn(item, k, space)
  {
    var cs := Combos(item, k);
    if forall c :: c in cs ==> SortInts(c) in space {
      forall c | |c| == k && IsSubseq(c, item) ensures SortInts(c) in space {
        CombosMeaning(item, k, c);
      }
    }
    if SubItemsIn(item, k, space) {
      forall c | c in cs ensures SortInts(c) in space {
        CombosMeaning(item, k, c);
      }
    }
  }

  /** An item is a valid candidate exactly when every list of
      `length - 1` of its columns, taken in order and sorted, is in the
      search space; a size below 1 is an error. */
  lemma CheckValidMeans(item: seq<int>, length: int, space: seq<seq<int>>)
    ensures CheckValidCandidates(item, length, space).Err? <==> length < 1
    ensures length >= 1 ==>
      CheckValidCandidates(item, length, space) == Ok(SubItemsIn(item, length - 1, space))
  {
    if length >= 1 {
      var cs := Combos(item, length - 1);
      var all := AllIn(cs, space);
      assert CheckValidCandidates(item, length, space) == Ok(all);
      AllInCombos(item, length - 1, space);
    }
  }

  lemma AllInCombos(item: seq<int>, k: nat, space: seq<seq<int>>)
    ensures AllIn(Combos(item, k), space) == SubItemsIn(item, k, space)
  {
    AllInMeaning(Combos(item, k), space);
    CombosCover(item, k, space);
  }


  // ---------------------------------------------------------------------
  // _prune

  /** The elements of `s` that occur in `keep`, in order. */
  function Filter(s: seq<int>, keep: seq<int>): seq<int> {
    if s == [] then []
    else (if s[0] in keep then [s[0]] else []) + Filter(s[1..], keep)
  }

  /** `s` without `it`. */
  function Without(s: seq<int>, it: int): seq<int> {
    if s == [] then []
    else (if s[0] == it then [] else [s[0]]) + Without(s[1..], it)
  }

  lemma {:induction false} FilterMeaning(s: seq<int>, keep: seq<int>)
    ensures forall y :: y in Filter(s, keep) <==> y in s && y in keep
  {
    if s != [] {
      FilterMeaning(s[1..], keep);
      assert forall y :: y in s <==> y == s[0] || y in s[1..] by {
        assert s == [s[0]] + s[1..];
      }
    }
  }

  lemma {:induction false} WithoutMeaning(s: seq<int>, it: int)
    ensures forall y :: y in Without(s, it) <==> y in s && y != it
  {
    if s != [] {
      WithoutMeaning(s[1..], it);
      assert forall y :: y in s <==> y == s[0] || y in s[1..] by {
        assert s == [s[0]] + s[1..];
      }
    }
  }

  /** The combinations one valid column list `se` strikes for the new item:
      for each shared column, in increasing order, the sorted union less
      that column. */
  function Diffs(se: seq<int>, item: seq<int>): (r: seq<seq<int>>)
    ensures |r| == |SortDedup(Filter(se, item))|
  {
    var shared := SortDedup(Filter(se, item));
    seq(|shared|, m requires 0 <= m < |shared| => SortDedup(Without(se + item, shared[m])))
  }

  /** All the combinations `_prune` tries to strike, in the order it tries
      them. */
  function Removals(validCols: seq<seq<int>>, item: seq<int>): seq<seq<int>> {
    if validCols == [] then []
    else Removals(validCols[..|validCols| - 1], item) + Diffs(validCols[|validCols| - 1], item)
  }

  /** `list.remove(d)` when `d` is in the list: its first occurrence goes. */
  function RemoveFirst(s: seq<seq<int>>, d: seq<int>): seq<seq<int>> {
    if s == [] then []
    else if s[0] == d then s[1..]
    else [s[0]] + RemoveFirst(s[1..], d)
  }

  function RemoveAll(s: seq<seq<int>>, ds: seq<seq<int>>): seq<seq<int>> {
    if ds == [] then s else RemoveFirst(RemoveAll(s, ds[..|ds| - 1]), ds[|ds| - 1])
  }

  lemma {:induction false} RemoveFirstCounts(s: seq<seq<int>>, d: seq<int>)
    ensures multiset(RemoveFirst(s, d)) == multiset(s) - multiset{d}
    ensures d !in s ==> RemoveFirst(s, d) == s
  {
    if s != [] {
      assert s == [s[0]] + s[1..];
      if s[0] != d {
        RemoveFirstCounts(s[1..], d);
      }
    }
  }

  lemma RemoveAllSnoc(s: seq<seq<int>>, ds: seq<seq<int>>, d: seq<int>)
    ensures RemoveAll(s, ds + [d]) == RemoveFirst(RemoveAll(s, ds), d)
  {
    assert (ds + [d])[..|ds|] == ds;
  }

  lemma {:induction false} RemoveAllConcat(s: seq<seq<int>>, a: seq<seq<int>>, b: seq<seq<int>>)
    ensures RemoveAll(s, a + b) == RemoveAll(RemoveAll(s, a), b)
    decreases |b|
  {
    if b == [] {
      assert a + b == a;
    } else {
      var b' := b[..|b| - 1];
      RemoveAllConcat(s, a, b');
      assert a + b == (a + b') + [b[|b| - 1]];
      RemoveAllSnoc(s, a + b', b[|b| - 1]);
      RemoveAllSnoc(RemoveAll(s, a), b', b[|b| - 1]);
      assert b == b' + [b[|b| - 1]];
    }
  }

  /** The inner loop of `_prune` for one valid column list `se`: each
      shared column, in increasing order, strikes the sorted union less
      that column when it is in the search space. */
  method Strike(space: seq<seq<int>>, se: seq<int>, item: seq<int>, shared: seq<int>) returns (r: seq<seq<int>>)
    requires shared == SortDedup(Filter(se, item))
    ensures r == RemoveAll(space, Diffs(se, item))
  {
    ghost var d := Diffs(se, item);
    var union := se + item;
    r := space;
    for m := 0 to |shared|
      invariant r == RemoveAll(space, d[..m])
    {
      var diff := SortDedup(Without(union, shared[m]));
      assert d[..m + 1] == d[..m] + [diff];
      RemoveAllSnoc(space, d[..m], diff);
      RemoveFirstCounts(r, diff);
      if diff in r {
        r := RemoveFirst(r, diff);
      }
    }
    assert d[..|shared|] == d;
  }

  /** `_prune(valid_cols, set(item), search_space)`, on the search space as
      a value. */
  method Prune(validCols: seq<seq<int>>, item: seq<int>, space: seq<seq<int>>) returns (r: seq<seq<int>>)
    ensures validCols == [] ==> r == space
    ensures r == RemoveAll(space, Removals(validCols, item))
  {
    r := space;
    if |validCols| == 0 {
      return;
    }
    for k := 0 to |validCols|
      invariant r == RemoveAll(space, Removals(validCols[..k], item))
    {
      var se := validCols[k];
      assert validCols[..k + 1][..k] == validCols[..k];
      ghost var before := Removals(validCols[..k], item);
      assert Removals(validCols[..k + 1], item) == before + Diffs(se, item);
      RemoveAllConcat(space, before, Diffs(se, item));
      var shared := SortDedup(Filter(se, item));
      if |shared| == 0 {
        assert Diffs(se, item) == [];
        continue;
      }
      r := Strike(r, se, item, shared);
    }
    assert validCols[..|validCols|] == validCols;
  }

  /** `_prune` only removes: each list keeps its count less the number of
      times it is struck, and nothing is added. */
  lemma {:induction false} RemoveAllCounts(s: seq<seq<int>>, ds: seq<seq<int>>)
    ensures multiset(RemoveAll(s, ds)) == multiset(s) - multiset(ds)
  {
    if ds != [] {
      var ds' := ds[..|ds| - 1];
      RemoveAllCounts(s, ds');
      RemoveFirstCounts(RemoveAll(s, ds'), ds[|ds| - 1]);
      assert ds == ds' + [ds[|ds| - 1]];
      assert multiset(ds) == multiset(ds') + multiset{ds[|ds| - 1]};
    }
  }

  /** What one valid column list strikes: for each column `it` it shares
      with the item, the increasing list of the columns of both less `it`,
      and nothing else. */
  lemma DiffsMeaning(se: seq<int>, item: seq<int>, x: seq<int>)
    ensures x in Diffs(se, item) <==>
      exists it :: it in se && it in item && Increasing(x) && forall y :: y in x <==> (y in se || y in item) && y != it
  {
    if x in Diffs(se, item) {
      DiffsSound(se, item, x);
    }
    if exists it :: it in se && it in item && Increasing(x) && forall y :: y in x <==> (y in se || y in item) && y != it {
      var it :| it in se && it in item && Increasing(x) && forall y :: y in x <==> (y in se || y in item) && y != it;
      DiffsComplete(se, item, it, x);
    }
  }

  lemma DiffsSound(se: seq<int>, item: seq<int>, x: seq<int>)
    requires x in Diffs(se, item)
    ensures exists it :: it in se && it in item && Increasing(x) && forall y :: y in x <==> (y in se || y in item) && y != it
  {
    var shared := SortDedup(Filter(se, item));
    var d := Diffs(se, item);
    var m :| 0 <= m < |d| && d[m] == x;
    var it := shared[m];
    assert it in shared;
    SortDedupFacts(Filter(se, item));
    FilterMeaning(se, item);
    SortDedupFacts(Without(se + item, it));
    WithoutMeaning(se + item, it);
    assert x == SortDedup(Without(se + item, it));
    assert it in se && it in item;
  }

  lemma DiffsComplete(se: seq<int>, item: seq<int>, it: int, x: seq<int>)
    requires it in se && it in item && Increasing(x)
    requires forall y :: y in x <==> (y in se || y in item) && y != it
    ensures x in Diffs(se, item)
  {
    var shared := SortDedup(Filter(se, item));
    SortDedupFacts(Filter(se, item));
    FilterMeaning(se, item);
    assert it in shared;
    var m :| 0 <= m < |shared| && shared[m] == it;
    var d := Diffs(se, item);
    SortDedupFacts(Without(se + item, it));
    WithoutMeaning(se + item, it);
    IncreasingUnique(x, d[m]);
  }

  /** Some valid column list strikes `x`. */
  ghost predicate StruckBySome(validCols: seq<seq<int>>, item: seq<int>, x: seq<int>) {
    exists k :: 0 <= k < |validCols| && x in Diffs(validCols[k], item)
  }

  /** What `_prune` tries to strike is what the valid column lists strike
      one by one (`DiffsMeaning`); a valid list that shares no column with
      the item strikes nothing. */
  lemma {:induction false} RemovalsMeaning(validCols: seq<seq<int>>, item: seq<int>, x: seq<int>)
    ensures x in Removals(validCols, item) <==> StruckBySome(validCols, item, x)
  {
    if validCols != [] {
      var n := |validCols| - 1;
      var init := validCols[..n];
      assert Removals(validCols, item) == Removals(init, item) + Diffs(validCols[n], item);
      RemovalsMeaning(init, item, x);
      if x in Removals(validCols, item) {
        if x in Removals(init, item) {
          var k :| 0 <= k < |init| && x in Diffs(init[k], item);
          assert validCols[k] == init[k];
        } else {
          assert x in Diffs(validCols[n], item);
        }
      }
      if StruckBySome(validCols, item, x) {
        var k :| 0 <= k < |validCols| && x in Diffs(validCols[k], item);
        if k < n {
          assert init[k] == validCols[k];
          assert StruckBySome(init, item, x);
        }
      }
    }
  }

  /** A valid column list that shares no column with the item strikes
      nothing. */
  lemma DisjointStrikesNothing(se: seq<int>, item: seq<int>)
    requires forall y :: y in se ==> y !in item
    ensures Diffs(se, item) == []
  {
    FilterMeaning(se, item);
    if Filter(se, item) != [] {
      assert Filter(se, item)[0] in Filter(se, item);
    }
  }
}
