/** What `shufflePhase` computes: rounds that each pick the key at the head of the first vector and move the pairs
    with that key from a prefix of the vectors into one group. */
module Shuffle {
  import opened Keys
  import opened Sums

  /** `std::sort` with `vectorComp`, as a function of the vectors it is given. */
  type Sorter = seq<Vec> -> seq<Vec>

  ghost predicate Permutes(sorter: Sorter) {
    forall vs: seq<Vec> :: multiset(sorter(vs)) == multiset(vs)
  }

  ghost function Pairs(v: Vec): multiset<Pair> { multiset(v) }

  /** All pairs of all vectors, with multiplicity. */
  ghost function Union(vs: seq<Vec>): multiset<Pair> { MSum(vs, Pairs) }

  predicate AllNonEmpty(vs: seq<Vec>) {
    forall i :: 0 <= i < |vs| ==> vs[i] != []
  }

  ghost predicate AllSorted(less: Less, vs: seq<Vec>) {
    forall i :: 0 <= i < |vs| ==> KeySorted(less, vs[i])
  }

  /** What the loop of the shuffle finds at the start of every round. */
  ghost predicate WellFormed(less: Less, vs: seq<Vec>) {
    AllNonEmpty(vs) && AllSorted(less, vs)
  }

  lemma UnionAppend(vs: seq<Vec>, v: Vec)
    ensures Union(vs + [v]) == Union(vs) + multiset(v)
  {
    MSumAppend(vs, v, Pairs);
  }

  lemma UnionConcat(vs: seq<Vec>, ws: seq<Vec>)
    ensures Union(vs + ws) == Union(vs) + Union(ws)
  {
    MSumConcat(vs, ws, Pairs);
  }

  ghost predicate Holding(vs: seq<Vec>, p: Pair) {
    exists i :: 0 <= i < |vs| && p in vs[i]
  }

  lemma HoldingAppend(vs: seq<Vec>, v: Vec, p: Pair)
    ensures Holding(vs + [v], p) <==> Holding(vs, p) || p in v
  {
    if Holding(vs, p) {
      var i :| 0 <= i < |vs| && p in vs[i];
      assert (vs + [v])[i] == vs[i];
    }
    if p in v {
      assert (vs + [v])[|vs|] == v;
    }
  }

  /** The vectors that are not empty, in order. */
  function NonEmpty(vs: seq<Vec>): (r: seq<Vec>)
    ensures AllNonEmpty(r)
  {
    if vs == [] then []
    else if vs[|vs|-1] == [] then NonEmpty(vs[..|vs|-1])
    else NonEmpty(vs[..|vs|-1]) + [vs[|vs|-1]]
  }

  lemma {:induction false} NonEmptyKeeps(less: Less, vs: seq<Vec>)
    ensures Union(NonEmpty(vs)) == Union(vs)
    ensures AllSorted(less, vs) ==> WellFormed(less, NonEmpty(vs))
    ensures |NonEmpty(vs)| <= |vs|
  {
    if vs != [] {
      var init, last := vs[..|vs|-1], vs[|vs|-1];
      NonEmptyKeeps(less, init);
      assert vs == init + [last];
      UnionAppend(init, last);
      if last != [] {
        UnionAppend(NonEmpty(init), last);
      }
    }
  }

  /** The number of vectors before the first one whose head key is above `k`. */
  function BreakAt(less: Less, vs: seq<Vec>, k: Ptr): (m: nat)
    requires AllNonEmpty(vs)
    ensures m <= |vs|
    ensures forall i :: 0 <= i < m ==> !less(k, vs[i][0].key)
    ensures m < |vs| ==> less(k, vs[m][0].key)
  {
    if vs == [] || less(k, vs[0][0].key) then 0 else 1 + BreakAt(less, vs[1..], k)
  }

  /** The pairs with key `k` of all vectors, in order. */
  function Collect(less: Less, vs: seq<Vec>, k: Ptr): Vec {
    if vs == [] then []
    else Collect(less, vs[..|vs|-1], k) + Same(less, vs[|vs|-1], k)
  }

  /** What is left of the vectors without the pairs with key `k`; vectors that become empty disappear. */
  function Remaining(less: Less, vs: seq<Vec>, k: Ptr): (r: seq<Vec>)
    ensures AllNonEmpty(r)
  {
    if vs == [] then []
    else
      var init, left := Remaining(less, vs[..|vs|-1], k), Others(less, vs[|vs|-1], k);
      if left == [] then init else init + [left]
  }

  /** The group of one round. */
  function Group(less: Less, ord: seq<Vec>): Vec
    requires AllNonEmpty(ord) && ord != []
  {
    var k := ord[0][0].key;
    Collect(less, ord[..BreakAt(less, ord, k)], k)
  }

  /** The vectors after one round. */
  function Rest(less: Less, ord: seq<Vec>): (r: seq<Vec>)
    requires AllNonEmpty(ord) && ord != []
    ensures AllNonEmpty(r)
  {
    var k := ord[0][0].key;
    var m := BreakAt(less, ord, k);
    Remaining(less, ord[..m], k) + ord[m..]
  }

  /** All groups, in the order in which they are pushed. */
  ghost function Groups(less: Less, sorter: Sorter, vs: seq<Vec>): seq<Vec>
    requires StrictWeakOrder(less) && Permutes(sorter) && AllNonEmpty(vs)
    decreases |Union(vs)|
  {
    if vs == [] then []
    else
      var ord := Sorted(sorter, vs);
      RoundShrinks(less, sorter, vs);
      [Group(less, ord)] + Groups(less, sorter, Rest(less, ord))
  }

  /** The vectors in the order of the sort. */
  function Sorted(sorter: Sorter, vs: seq<Vec>): (ord: seq<Vec>)
    requires Permutes(sorter) && AllNonEmpty(vs)
    ensures multiset(ord) == multiset(vs) && |ord| == |vs| && AllNonEmpty(ord)
    ensures Union(ord) == Union(vs)
    ensures forall less :: AllSorted(less, vs) ==> AllSorted(less, ord)
  {
    var ord := sorter(vs);
    assert |multiset(ord)| == |multiset(vs)|;
    MSumPermutation(ord, vs, Pairs);
    PermutationMembers(ord, vs);
    ord
  }

  lemma PermutationMembers(ord: seq<Vec>, vs: seq<Vec>)
    requires multiset(ord) == multiset(vs)
    ensures forall i :: 0 <= i < |ord| ==> ord[i] in vs
    ensures forall i :: 0 <= i < |vs| ==> vs[i] in ord
  {
    forall i | 0 <= i < |ord| ensures ord[i] in vs { assert ord[i] in multiset(ord); }
    forall i | 0 <= i < |vs| ensures vs[i] in ord { assert vs[i] in multiset(vs); }
  }

  // ---------------------------------------------------------------- one round

  lemma {:induction false} CollectKeeps(less: Less, vs: seq<Vec>, k: Ptr)
    ensures Union(vs) == multiset(Collect(less, vs, k)) + Union(Remaining(less, vs, k))
  {
    if vs != [] {
      var init, last := vs[..|vs|-1], vs[|vs|-1];
      CollectKeeps(less, init, k);
      assert vs == init + [last];
      UnionAppend(init, last);
      SplitMultiset(less, last, k);
      var left := Others(less, last, k);
      UnionAppend(Remaining(less, init, k), left);
      assert Union(Remaining(less, vs, k)) == Union(Remaining(less, init, k)) + multiset(left);
      Regroup(multiset(Collect(less, init, k)), Union(Remaining(less, init, k)),
              multiset(Same(less, last, k)), multiset(left));
    }
  }

  /** A round moves pairs from the vectors into the group and loses none. */
  lemma RoundKeeps(less: Less, ord: seq<Vec>)
    requires AllNonEmpty(ord) && ord != []
    ensures Union(ord) == multiset(Group(less, ord)) + Union(Rest(less, ord))
  {
    var k := ord[0][0].key;
    var m := BreakAt(less, ord, k);
    var visited, ahead := ord[..m], ord[m..];
    assert ord == visited + ahead;
    UnionConcat(visited, ahead);
    UnionConcat(Remaining(less, visited, k), ahead);
    CollectKeeps(less, visited, k);
    AddAssociative(multiset(Collect(less, visited, k)), Union(Remaining(less, visited, k)), Union(ahead));
  }

  /** The pairs a prefix of the vectors gives to the group, and those it keeps. */
  lemma {:induction false} ScanMember(less: Less, vs: seq<Vec>, k: Ptr, p: Pair)
    ensures p in Collect(less, vs, k) <==> KeyEqual(less, p.key, k) && Holding(vs, p)
    ensures Holding(Remaining(less, vs, k), p) <==> !KeyEqual(less, p.key, k) && Holding(vs, p)
  {
    if vs != [] {
      var init, last := vs[..|vs|-1], vs[|vs|-1];
      ScanMember(less, init, k, p);
      SameMember(less, last, k, p);
      OthersMember(less, last, k, p);
      assert vs == init + [last];
      HoldingAppend(init, last, p);
      HoldingAppend(Remaining(less, init, k), Others(less, last, k), p);
    }
  }

  /** The group of a round holds the head pair of the first vector, and only pairs with its key. */
  lemma GroupHead(less: Less, ord: seq<Vec>)
    requires StrictWeakOrder(less) && AllNonEmpty(ord) && ord != []
    ensures ord[0][0] in Group(less, ord)
    ensures forall p :: p in Group(less, ord) ==> KeyEqual(less, p.key, ord[0][0].key)
  {
    var k := ord[0][0].key;
    var m := BreakAt(less, ord, k);
    assert ord[..m][0] == ord[0];
    ScanMember(less, ord[..m], k, ord[0][0]);
    forall p | p in Group(less, ord) ensures KeyEqual(less, p.key, k) {
      ScanMember(less, ord[..m], k, p);
    }
  }

  lemma RoundShrinks(less: Less, sorter: Sorter, vs: seq<Vec>)
    requires StrictWeakOrder(less) && Permutes(sorter) && AllNonEmpty(vs) && vs != []
    ensures |Union(Rest(less, Sorted(sorter, vs)))| < |Union(vs)|
  {
    var ord := Sorted(sorter, vs);
    RoundKeeps(less, ord);
    GroupHead(less, ord);
  }

  lemma {:induction false} RemainingSorted(less: Less, vs: seq<Vec>, k: Ptr)
    requires AllSorted(less, vs)
    ensures AllSorted(less, Remaining(less, vs, k))
  {
    if vs != [] {
      RemainingSorted(less, vs[..|vs|-1], k);
      OthersSorted(less, vs[|vs|-1], k);
    }
  }

  /** A round leaves non-empty key-sorted vectors. */
  lemma RestWellFormed(less: Less, ord: seq<Vec>)
    requires WellFormed(less, ord) && ord != []
    ensures WellFormed(less, Rest(less, ord))
  {
    var k := ord[0][0].key;
    RemainingSorted(less, ord[..BreakAt(less, ord, k)], k);
  }

  lemma HoldingUnion(vs: seq<Vec>, p: Pair)
    ensures Holding(vs, p) <==> p in Union(vs)
  {
    if p in Union(vs) {
      var i := MSumWitness(vs, Pairs, p);
    }
    forall i | 0 <= i < |vs| && p in vs[i] ensures p in Union(vs) {
      MSumContains(vs, i, Pairs);
    }
  }
}
