/** What the groups of the shuffle are worth: they partition the pairs for every outer order, and exactly one group
    carries each key if and only if no round breaks off before a vector that still holds the current key. */
module ShuffleTheorems {
  import opened Keys
  import opened Sums
  import opened Shuffle

  /** Non-empty, and all pairs have the key of the first one. */
  ghost predicate Homogeneous(less: Less, g: Vec) {
    g != [] && forall p :: p in g ==> KeyEqual(less, p.key, g[0].key)
  }

  ghost predicate AllHomogeneous(less: Less, gs: seq<Vec>) {
    forall i :: 0 <= i < |gs| ==> Homogeneous(less, gs[i])
  }

  /** No two groups have equivalent keys. */
  ghost predicate OneGroupPerKey(less: Less, gs: seq<Vec>)
    requires AllNonEmpty(gs)
  {
    forall i, j :: 0 <= i < j < |gs| ==> !KeyEqual(less, gs[i][0].key, gs[j][0].key)
  }

  ghost predicate AscendingKeys(less: Less, gs: seq<Vec>)
    requires AllNonEmpty(gs)
  {
    forall i, j :: 0 <= i < j < |gs| ==> less(gs[i][0].key, gs[j][0].key)
  }

  // ------------------------------------------------------------ partition, for any outer order

  lemma GroupHomogeneous(less: Less, ord: seq<Vec>)
    requires StrictWeakOrder(less) && AllNonEmpty(ord) && ord != []
    ensures Homogeneous(less, Group(less, ord))
    ensures KeyEqual(less, Group(less, ord)[0].key, ord[0][0].key)
  {
    GroupHead(less, ord);
    var g, k := Group(less, ord), ord[0][0].key;
    forall p | p in g ensures KeyEqual(less, p.key, g[0].key) {
      assert KeyEqual(less, g[0].key, k) && KeyEqual(less, k, g[0].key);
    }
  }

  /** The groups are non-empty, each carries a single key, and together they are exactly the input pairs. */
  lemma {:induction false} GroupsPartition(less: Less, sorter: Sorter, vs: seq<Vec>)
    requires StrictWeakOrder(less) && Permutes(sorter) && AllNonEmpty(vs)
    ensures AllHomogeneous(less, Groups(less, sorter, vs))
    ensures Union(Groups(less, sorter, vs)) == Union(vs)
    decreases |Union(vs)|
  {
    if vs != [] {
      var ord: seq<Vec> := Sorted(sorter, vs);
      RoundShrinks(less, sorter, vs);
      GroupsPartition(less, sorter, Rest(less, ord));
      GroupHomogeneous(less, ord);
      RoundKeeps(less, ord);
      var g: Vec, gs: seq<Vec> := Group(less, ord), Groups(less, sorter, Rest(less, ord));
      assert Groups(less, sorter, vs) == [g] + gs;
      UnionConcat([g], gs);
      UnionAppend([], g);
      assert [] + [g] == [g];
    }
  }

  // ------------------------------------------------------------ how often a key can be split

  /** 1 for a vector with a pair of key `k`, 0 for any other. */
  ghost function Holds(less: Less, k: Ptr): Vec -> nat {
    (v: Vec) => if exists p :: p in v && KeyEqual(less, p.key, k) then 1 else 0
  }

  /** The number of vectors (or groups) in which key `k` occurs. */
  ghost function Holders(less: Less, vs: seq<Vec>, k: Ptr): nat {
    NSum(vs, Holds(less, k))
  }

  lemma {:induction false} HoldersRemaining(less: Less, vs: seq<Vec>, cur: Ptr, k: Ptr)
    requires StrictWeakOrder(less)
    ensures Holders(less, Remaining(less, vs, cur), k) <= Holders(less, vs, k)
    ensures KeyEqual(less, cur, k) ==> Holders(less, Remaining(less, vs, cur), k) == 0
  {
    if vs != [] {
      var init, last := vs[..|vs|-1], vs[|vs|-1];
      var left := Others(less, last, cur);
      HoldersRemaining(less, init, cur, k);
      assert vs == init + [last];
      NSumConcat(init, [last], Holds(less, k));
      NSumConcat(Remaining(less, init, cur), [left], Holds(less, k));
      assert NSum([last], Holds(less, k)) == Holds(less, k)(last) + NSum([], Holds(less, k));
      assert NSum([left], Holds(less, k)) == Holds(less, k)(left) + NSum([], Holds(less, k));
      forall p | p in left && KeyEqual(less, p.key, k) ensures p in last && !KeyEqual(less, cur, k) {
        OthersMember(less, last, cur, p);
        assert KeyEqual(less, k, cur) == KeyEqual(less, cur, k);
      }
    }
  }

  /** A round that makes a group with key `k` takes that key away from at least one vector; no round spreads it. */
  lemma HoldersRound(less: Less, ord: seq<Vec>, k: Ptr)
    requires StrictWeakOrder(less) && AllNonEmpty(ord) && ord != []
    ensures Holds(less, k)(Group(less, ord)) + Holders(less, Rest(less, ord), k) <= Holders(less, ord, k)
  {
    var cur := ord[0][0].key;
    var m := BreakAt(less, ord, cur);
    var visited, ahead := ord[..m], ord[m..];
    assert ord == visited + ahead;
    NSumConcat(visited, ahead, Holds(less, k));
    NSumConcat(Remaining(less, visited, cur), ahead, Holds(less, k));
    HoldersRemaining(less, visited, cur, k);
    GroupHead(less, ord);
    if exists p :: p in Group(less, ord) && KeyEqual(less, p.key, k) {
      var p :| p in Group(less, ord) && KeyEqual(less, p.key, k);
      assert KeyEqual(less, cur, p.key) && KeyEqual(less, cur, k);
      assert visited[0] == ord[0] && ord[0][0] in visited[0];
      NSumAtLeast(visited, 0, Holds(less, k));
    }
  }

  /** No key is spread over more groups than there were vectors holding it. */
  lemma {:induction false} SplitBound(less: Less, sorter: Sorter, vs: seq<Vec>, k: Ptr)
    requires StrictWeakOrder(less) && Permutes(sorter) && AllNonEmpty(vs)
    ensures Holders(less, Groups(less, sorter, vs), k) <= Holders(less, vs, k) <= |vs|
    decreases |Union(vs)|
  {
    NSumBounded(vs, Holds(less, k), 1);
    if vs != [] {
      var ord: seq<Vec> := Sorted(sorter, vs);
      RoundShrinks(less, sorter, vs);
      SplitBound(less, sorter, Rest(less, ord), k);
      HoldersRound(less, ord, k);
      NSumPermutation(ord, vs, Holds(less, k));
    }
  }

  // ------------------------------------------------------------ a vector's run of one key stays together

  lemma {:induction false} CollectContains(less: Less, vs: seq<Vec>, k: Ptr, i: nat)
    requires i < |vs|
    ensures multiset(Same(less, vs[i], k)) <= multiset(Collect(less, vs, k))
  {
    if i < |vs| - 1 {
      CollectContains(less, vs[..|vs|-1], k, i);
    }
  }

  lemma {:induction false} RemainingContains(less: Less, vs: seq<Vec>, k: Ptr, i: nat)
    requires i < |vs| && Others(less, vs[i], k) != []
    ensures Others(less, vs[i], k) in Remaining(less, vs, k)
  {
    if i < |vs| - 1 {
      RemainingContains(less, vs[..|vs|-1], k, i);
    }
  }

  /** Group `g` holds all pairs of vector `v` with key `k`. */
  ghost predicate Inside(less: Less, v: Vec, k: Ptr, g: Vec) {
    multiset(Same(less, v, k)) <= multiset(g)
  }

  /** A vector the round scans gives its pairs of the round's key to the group and keeps the others. */
  lemma ScannedVector(less: Less, ord: seq<Vec>, i: nat, p: Pair)
    requires StrictWeakOrder(less) && AllNonEmpty(ord) && ord != []
    requires i < BreakAt(less, ord, ord[0][0].key) && p in ord[i]
    ensures var k := ord[0][0].key;
            if KeyEqual(less, p.key, k) then Inside(less, ord[i], p.key, Group(less, ord))
            else
              var left := Others(less, ord[i], k);
              && left in Rest(less, ord) && p in left
              && forall g :: Inside(less, left, p.key, g) ==> Inside(less, ord[i], p.key, g)
  {
    var k := ord[0][0].key;
    var m := BreakAt(less, ord, k);
    SameKeySame(less, ord[i], p.key, k);
    if KeyEqual(less, p.key, k) {
      CollectContains(less, ord[..m], k, i);
    } else {
      OthersMember(less, ord[i], k, p);
      RemainingContains(less, ord[..m], k, i);
    }
  }

  lemma InAppended(a: seq<Vec>, b: seq<Vec>, i: nat)
    requires i < |b|
    ensures b[i] in a + b
  {
    assert (a + b)[|a| + i] == b[i];
  }

  /** A vector behind the break stays as it is. */
  lemma SkippedVector(less: Less, ord: seq<Vec>, i: nat)
    requires AllNonEmpty(ord) && ord != []
    requires BreakAt(less, ord, ord[0][0].key) <= i < |ord|
    ensures ord[i] in Rest(less, ord)
  {
    var k := ord[0][0].key;
    var m := BreakAt(less, ord, k);
    assert ord[m..][i-m] == ord[i];
    InAppended(Remaining(less, ord[..m], k), ord[m..], i - m);
  }

  /** All pairs that vector `v` holds of one key land in a single group. */
  lemma {:induction false} RunStaysTogether(less: Less, sorter: Sorter, vs: seq<Vec>, v: Vec, p: Pair)
      returns (j: nat)
    requires StrictWeakOrder(less) && Permutes(sorter) && AllNonEmpty(vs)
    requires v in vs && p in v
    ensures j < |Groups(less, sorter, vs)|
    ensures Inside(less, v, p.key, Groups(less, sorter, vs)[j])
    decreases |Union(vs)|
  {
    var ord: seq<Vec> := Sorted(sorter, vs);
    RoundShrinks(less, sorter, vs);
    PermutationMembers(ord, vs);
    var i :| 0 <= i < |ord| && ord[i] == v;
    if i >= BreakAt(less, ord, ord[0][0].key) {
      SkippedVector(less, ord, i);
      j := RunStaysTogether(less, sorter, Rest(less, ord), v, p);
      j := j + 1;
    } else {
      ScannedVector(less, ord, i, p);
      if KeyEqual(less, p.key, ord[0][0].key) {
        j := 0;
      } else {
        j := RunStaysTogether(less, sorter, Rest(less, ord), Others(less, v, ord[0][0].key), p);
        j := j + 1;
      }
    }
  }

  /** Taking out one key does not touch the pairs of another; equivalent keys select the same pairs. */
  lemma SameKeySame(less: Less, v: Vec, k: Ptr, cur: Ptr)
    requires StrictWeakOrder(less)
    ensures KeyEqual(less, k, cur) ==> multiset(Same(less, v, k)) == multiset(Same(less, v, cur))
    ensures !KeyEqual(less, k, cur) ==> multiset(Same(less, Others(less, v, cur), k)) == multiset(Same(less, v, k))
  {
    forall p: Pair
      ensures KeyEqual(less, k, cur) ==> multiset(Same(less, v, k))[p] == multiset(Same(less, v, cur))[p]
      ensures !KeyEqual(less, k, cur) ==>
                multiset(Same(less, Others(less, v, cur), k))[p] == multiset(Same(less, v, k))[p]
    {
      SplitCount(less, v, k, p);
      SplitCount(less, v, cur, p);
      SplitCount(less, Others(less, v, cur), k, p);
      assert KeyEqual(less, k, cur) == KeyEqual(less, cur, k) && KeyEqual(less, k, p.key) == KeyEqual(less, p.key, k);
    }
  }

  // ------------------------------------------------------------ one group per key

  /** The early break of this round leaves out no vector that holds the current key. */
  predicate BreakLosesNothing(less: Less, ord: seq<Vec>)
    requires AllNonEmpty(ord) && ord != []
  {
    var k := ord[0][0].key;
    forall i, j :: BreakAt(less, ord, k) <= i < |ord| && 0 <= j < |ord[i]| ==> !KeyEqual(less, ord[i][j].key, k)
  }

  /** The early break loses nothing in any round. */
  ghost predicate NeverSkips(less: Less, sorter: Sorter, vs: seq<Vec>)
    requires StrictWeakOrder(less) && Permutes(sorter) && AllNonEmpty(vs)
    decreases |Union(vs)|
  {
    vs == [] ||
    var ord: seq<Vec> := Sorted(sorter, vs);
    RoundShrinks(less, sorter, vs);
    BreakLosesNothing(less, ord) && NeverSkips(less, sorter, Rest(less, ord))
  }

  lemma RestMember(less: Less, ord: seq<Vec>, p: Pair)
    requires AllNonEmpty(ord) && ord != []
    ensures BreakLosesNothing(less, ord) && p in Union(Rest(less, ord)) ==> !KeyEqual(less, p.key, ord[0][0].key)
    ensures Holding(ord[BreakAt(less, ord, ord[0][0].key)..], p) ==> p in Union(Rest(less, ord))
  {
    var k := ord[0][0].key;
    var m := BreakAt(less, ord, k);
    UnionConcat(Remaining(less, ord[..m], k), ord[m..]);
    HoldingUnion(Remaining(less, ord[..m], k), p);
    HoldingUnion(ord[m..], p);
    ScanMember(less, ord[..m], k, p);
  }

  /** The groups have pairwise inequivalent keys exactly when no round skips a vector that holds its key. */
  lemma {:induction false} OneGroupPerKeyIff(less: Less, sorter: Sorter, vs: seq<Vec>)
    requires StrictWeakOrder(less) && Permutes(sorter) && AllNonEmpty(vs)
    ensures AllNonEmpty(Groups(less, sorter, vs))
    ensures OneGroupPerKey(less, Groups(less, sorter, vs)) <==> NeverSkips(less, sorter, vs)
    decreases |Union(vs)|
  {
    GroupsPartition(less, sorter, vs);
    if vs != [] {
      var ord: seq<Vec> := Sorted(sorter, vs);
      var k := ord[0][0].key;
      var g: Vec, gs: seq<Vec> := Group(less, ord), Groups(less, sorter, Rest(less, ord));
      RoundShrinks(less, sorter, vs);
      OneGroupPerKeyIff(less, sorter, Rest(less, ord));
      GroupsPartition(less, sorter, Rest(less, ord));
      GroupHomogeneous(less, ord);
      assert Groups(less, sorter, vs) == [g] + gs;
      OneGroupPerKeyCons(less, g, gs);
      if BreakLosesNothing(less, ord) {
        CurrentKeyIsGone(less, ord, g, gs);
      } else {
        SkippedKeySplits(less, sorter, ord, g, gs);
      }
    }
  }

  lemma OneGroupPerKeyCons(less: Less, g: Vec, gs: seq<Vec>)
    requires g != [] && AllNonEmpty(gs)
    ensures AllNonEmpty([g] + gs)
    ensures OneGroupPerKey(less, [g] + gs) <==>
            OneGroupPerKey(less, gs) && forall j :: 0 <= j < |gs| ==> !KeyEqual(less, g[0].key, gs[j][0].key)
  {
    var all := [g] + gs;
    assert all[0] == g && forall j :: 0 <= j < |gs| ==> all[j+1] == gs[j];
    assert forall i :: 0 < i < |all| ==> all[i] == gs[i-1];
  }

  /** If the break loses nothing, no later group has the current key. */
  lemma CurrentKeyIsGone(less: Less, ord: seq<Vec>, g: Vec, gs: seq<Vec>)
    requires StrictWeakOrder(less) && AllNonEmpty(ord) && ord != [] && BreakLosesNothing(less, ord)
    requires g != [] && KeyEqual(less, g[0].key, ord[0][0].key)
    requires AllNonEmpty(gs) && Union(gs) == Union(Rest(less, ord))
    ensures forall j :: 0 <= j < |gs| ==> !KeyEqual(less, g[0].key, gs[j][0].key)
  {
    forall j | 0 <= j < |gs| ensures !KeyEqual(less, g[0].key, gs[j][0].key) {
      MSumContains(gs, j, Pairs);
      assert gs[j][0] in Pairs(gs[j]);
      RestMember(less, ord, gs[j][0]);
      KeyEqualTrans(less, gs[j][0].key, g[0].key, ord[0][0].key);
    }
  }

  /** A skipped pair comes back in a later group, with a key that already has one. */
  lemma SkippedKeySplits(less: Less, sorter: Sorter, ord: seq<Vec>, g: Vec, gs: seq<Vec>)
    requires StrictWeakOrder(less) && AllNonEmpty(ord) && ord != [] && !BreakLosesNothing(less, ord)
    requires Homogeneous(less, g) && KeyEqual(less, g[0].key, ord[0][0].key)
    requires AllHomogeneous(less, gs) && Union(gs) == Union(Rest(less, ord))
    ensures AllNonEmpty([g] + gs) && !OneGroupPerKey(less, [g] + gs)
  {
    var k := ord[0][0].key;
    var m := BreakAt(less, ord, k);
    var i, j :| m <= i < |ord| && 0 <= j < |ord[i]| && KeyEqual(less, ord[i][j].key, k);
    var p := ord[i][j];
    assert ord[m..][i-m] == ord[i];
    RestMember(less, ord, p);
    var x := MSumWitness(gs, Pairs, p);
    assert Homogeneous(less, gs[x]) && p in gs[x];
    KeyEqualTrans(less, g[0].key, p.key, k);
    KeyEqualTrans(less, g[0].key, p.key, gs[x][0].key);
    OneGroupPerKeyCons(less, g, gs);
  }

  /** A pair with the key of group `i` can only be in group `i`. */
  lemma KeyFindsGroup(less: Less, gs: seq<Vec>, i: nat, y: nat, p: Pair)
    requires StrictWeakOrder(less) && AllHomogeneous(less, gs) && AllNonEmpty(gs) && OneGroupPerKey(less, gs)
    requires i < |gs| && y < |gs| && p in gs[y] && KeyEqual(less, p.key, gs[i][0].key)
    ensures y == i
  {
    assert Homogeneous(less, gs[y]);
    KeyEqualTrans(less, gs[i][0].key, p.key, gs[y][0].key);
  }

  /** With one group per key, each group holds every pair of its key. */
  lemma GroupsComplete(less: Less, gs: seq<Vec>, i: nat, p: Pair)
    requires StrictWeakOrder(less) && AllHomogeneous(less, gs) && AllNonEmpty(gs) && OneGroupPerKey(less, gs)
    requires i < |gs|
    ensures multiset(gs[i])[p] == if KeyEqual(less, p.key, gs[i][0].key) then Union(gs)[p] else 0
  {
    var others := gs[..i] + gs[i+1..];
    MSumRemove(gs, i, Pairs);
    assert p in multiset(gs[i]) ==> p in gs[i];
    assert Homogeneous(less, gs[i]);
    if KeyEqual(less, p.key, gs[i][0].key) && p in Union(others) {
      var x := MSumWitness(others, Pairs, p);
      KeyFindsGroup(less, gs, i, if x < i then x else x + 1, p);
      assert false;
    }
  }

  // ------------------------------------------------------------ heads in key order

  /** The outer sort has brought the vectors into the order of their head keys. */
  ghost predicate HeadsSorted(less: Less, ord: seq<Vec>)
    requires AllNonEmpty(ord)
  {
    forall i, j :: 0 <= i < j < |ord| ==> !less(ord[j][0].key, ord[i][0].key)
  }

  /** Every round of the shuffle starts with the heads in key order. */
  ghost predicate HeadsInOrder(less: Less, sorter: Sorter, vs: seq<Vec>)
    requires StrictWeakOrder(less) && Permutes(sorter) && AllNonEmpty(vs)
    decreases |Union(vs)|
  {
    vs == [] ||
    var ord: seq<Vec> := Sorted(sorter, vs);
    RoundShrinks(less, sorter, vs);
    HeadsSorted(less, ord) && HeadsInOrder(less, sorter, Rest(less, ord))
  }

  /** After a round with the heads in key order, everything left is above the current key. */
  lemma RestAbove(less: Less, ord: seq<Vec>, p: Pair)
    requires StrictWeakOrder(less) && WellFormed(less, ord) && ord != [] && HeadsSorted(less, ord)
    ensures BreakLosesNothing(less, ord)
    ensures p in Union(Rest(less, ord)) ==> less(ord[0][0].key, p.key)
  {
    var k := ord[0][0].key;
    var m := BreakAt(less, ord, k);
    forall i, j | m <= i < |ord| && 0 <= j < |ord[i]| ensures less(k, ord[i][j].key) {
      LessNotLess(less, k, ord[m][0].key, ord[i][0].key);
      LessNotLess(less, k, ord[i][0].key, ord[i][j].key);
    }
    UnionConcat(Remaining(less, ord[..m], k), ord[m..]);
    HoldingUnion(Remaining(less, ord[..m], k), p);
    HoldingUnion(ord[m..], p);
    ScanMember(less, ord[..m], k, p);
    if Holding(Remaining(less, ord[..m], k), p) {
      var i :| 0 <= i < m && p in ord[i];
      var j :| 0 <= j < |ord[i]| && ord[i][j] == p;
      NotLessTrans(less, k, ord[i][0].key, p.key);
    }
    if Holding(ord[m..], p) {
      var i :| 0 <= i < |ord| - m && p in ord[m..][i];
      assert p in ord[m+i];
    }
  }

  lemma LessNotLess(less: Less, a: Ptr, b: Ptr, c: Ptr)
    requires StrictWeakOrder(less) && less(a, b) && !less(c, b)
    ensures less(a, c)
  {
    if !less(b, c) {
      LessRespectsEqual(less, a, b, c);
    }
  }

  lemma LaterGroupsAbove(less: Less, ord: seq<Vec>, g: Vec, gs: seq<Vec>)
    requires StrictWeakOrder(less) && WellFormed(less, ord) && ord != [] && HeadsSorted(less, ord)
    requires g != [] && KeyEqual(less, g[0].key, ord[0][0].key)
    requires AllNonEmpty(gs) && Union(gs) == Union(Rest(less, ord))
    ensures forall j :: 0 <= j < |gs| ==> less(g[0].key, gs[j][0].key)
  {
    forall j | 0 <= j < |gs| ensures less(g[0].key, gs[j][0].key) {
      MSumContains(gs, j, Pairs);
      assert gs[j][0] in Pairs(gs[j]);
      RestAbove(less, ord, gs[j][0]);
      LessRespectsEqual(less, gs[j][0].key, g[0].key, ord[0][0].key);
    }
  }

  lemma AscendingCons(less: Less, g: Vec, gs: seq<Vec>)
    requires g != [] && AllNonEmpty(gs) && AscendingKeys(less, gs)
    requires forall j :: 0 <= j < |gs| ==> less(g[0].key, gs[j][0].key)
    ensures AllNonEmpty([g] + gs) && AscendingKeys(less, [g] + gs)
  {
    var all := [g] + gs;
    assert all[0] == g && forall i :: 0 < i < |all| ==> all[i] == gs[i-1];
  }

  /** With the heads in key order the early break never loses a pair and the groups come in strictly ascending
      key order. */
  lemma {:induction false} KeyOrderAscends(less: Less, sorter: Sorter, vs: seq<Vec>)
    requires StrictWeakOrder(less) && Permutes(sorter) && WellFormed(less, vs)
    requires HeadsInOrder(less, sorter, vs)
    ensures NeverSkips(less, sorter, vs)
    ensures AllNonEmpty(Groups(less, sorter, vs)) && AscendingKeys(less, Groups(less, sorter, vs))
    decreases |Union(vs)|
  {
    GroupsPartition(less, sorter, vs);
    if vs != [] {
      var ord: seq<Vec> := Sorted(sorter, vs);
      var g: Vec, gs: seq<Vec> := Group(less, ord), Groups(less, sorter, Rest(less, ord));
      RoundShrinks(less, sorter, vs);
      RestWellFormed(less, ord);
      KeyOrderAscends(less, sorter, Rest(less, ord));
      GroupsPartition(less, sorter, Rest(less, ord));
      GroupHomogeneous(less, ord);
      RestAbove(less, ord, ord[0][0]);
      LaterGroupsAbove(less, ord, g, gs);
      AscendingCons(less, g, gs);
    }
  }

  /** With the heads in key order each group holds all pairs of its key, from all vectors. */
  lemma KeyOrderCompletes(less: Less, sorter: Sorter, vs: seq<Vec>, i: nat, p: Pair)
    requires StrictWeakOrder(less) && Permutes(sorter) && WellFormed(less, vs)
    requires HeadsInOrder(less, sorter, vs) && i < |Groups(less, sorter, vs)|
    ensures var g := Groups(less, sorter, vs)[i];
            g != [] && multiset(g)[p] == if KeyEqual(less, p.key, g[0].key) then Union(vs)[p] else 0
  {
    GroupsPartition(less, sorter, vs);
    KeyOrderAscends(less, sorter, vs);
    OneGroupPerKeyIff(less, sorter, vs);
    GroupsComplete(less, Groups(less, sorter, vs), i, p);
  }
}
