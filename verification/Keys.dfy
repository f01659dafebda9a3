/** Intermediate pairs, the order the client puts on their keys, and the split of a vector into the pairs of one
    key and all the others. */
module Keys {

  /** A C++ pointer; only its address matters to the framework. */
  type Ptr = int

  /** An `InputPair`, `IntermediatePair` or `OutputPair`: two pointers. */
  datatype Pair = Pair(key: Ptr, value: Ptr)

  type Vec = seq<Pair>

  /** `K2::operator<`, as a relation on pointers to keys. */
  type Less = (Ptr, Ptr) -> bool

  /** The requirement `std::sort` puts on a comparison. */
  ghost predicate StrictWeakOrder(less: Less) {
    && (forall a: Ptr :: !less(a, a))
    && (forall a: Ptr, b: Ptr, c: Ptr {:trigger less(a, b), less(b, c)} ::
          less(a, b) && less(b, c) ==> less(a, c))
    && (forall a: Ptr, b: Ptr, c: Ptr {:trigger less(a, b), less(b, c)} ::
          KeyEqual(less, a, b) && KeyEqual(less, b, c) ==> KeyEqual(less, a, c))
  }

  /** `keyEqual2`. */
  predicate KeyEqual(less: Less, a: Ptr, b: Ptr) {
    !less(a, b) && !less(b, a)
  }

  /** No pair has a key below that of an earlier pair. */
  ghost predicate KeySorted(less: Less, v: Vec) {
    forall i, j :: 0 <= i < j < |v| ==> !less(v[j].key, v[i].key)
  }

  lemma KeyEqualTrans(less: Less, a: Ptr, b: Ptr, c: Ptr)
    requires StrictWeakOrder(less) && KeyEqual(less, b, c)
    ensures KeyEqual(less, a, b) == KeyEqual(less, a, c)
  {
    assert KeyEqual(less, c, b);
  }

  lemma LessAntisymmetric(less: Less, a: Ptr, b: Ptr)
    requires StrictWeakOrder(less) && less(a, b)
    ensures !less(b, a)
  {
  }

  /** Equivalent keys stand on the same side of every other key. */
  lemma LessRespectsEqual(less: Less, a: Ptr, b: Ptr, c: Ptr)
    requires StrictWeakOrder(less) && KeyEqual(less, b, c)
    ensures less(a, b) == less(a, c) && less(b, a) == less(c, a)
  {
    assert KeyEqual(less, c, b);
    assert less(a, b) || less(b, a) || KeyEqual(less, a, b);
    assert less(a, c) || less(c, a) || KeyEqual(less, a, c);
  }

  /** If `a` is not above `b` and `b` is below `c` then `a` is below `c`. */
  lemma LessTrans(less: Less, a: Ptr, b: Ptr, c: Ptr)
    requires StrictWeakOrder(less) && !less(b, a) && less(b, c)
    ensures less(a, c)
  {
    if !less(a, b) {
      LessRespectsEqual(less, c, a, b);
    }
  }

  /** The relation "not above" is transitive. */
  lemma NotLessTrans(less: Less, a: Ptr, b: Ptr, c: Ptr)
    requires StrictWeakOrder(less) && !less(b, a) && !less(c, b)
    ensures !less(c, a)
  {
    if less(c, a) {
      LessTrans(less, b, c, a);
    }
  }

  /** The pairs of `v` whose key is equivalent to `k`, in order. */
  function Same(less: Less, v: Vec, k: Ptr): Vec {
    if v == [] then []
    else
      var last := v[|v|-1];
      var init := Same(less, v[..|v|-1], k);
      if KeyEqual(less, last.key, k) then init + [last] else init
  }

  /** The pairs of `v` whose key is not equivalent to `k`, in order. */
  function Others(less: Less, v: Vec, k: Ptr): Vec {
    if v == [] then []
    else
      var last := v[|v|-1];
      var init := Others(less, v[..|v|-1], k);
      if KeyEqual(less, last.key, k) then init else init + [last]
  }

  /** `Same` and `Others` keep every pair with its multiplicity, and sort the pairs by their key. */
  lemma {:induction false} SplitCount(less: Less, v: Vec, k: Ptr, p: Pair)
    ensures multiset(Same(less, v, k))[p] == if KeyEqual(less, p.key, k) then multiset(v)[p] else 0
    ensures multiset(Others(less, v, k))[p] == if KeyEqual(less, p.key, k) then 0 else multiset(v)[p]
  {
    if v != [] {
      SplitCount(less, v[..|v|-1], k, p);
      assert v == v[..|v|-1] + [v[|v|-1]];
    }
  }

  lemma {:induction false} SplitMultiset(less: Less, v: Vec, k: Ptr)
    ensures multiset(v) == multiset(Same(less, v, k)) + multiset(Others(less, v, k))
  {
    forall p: Pair ensures multiset(v)[p] == (multiset(Same(less, v, k)) + multiset(Others(less, v, k)))[p] {
      SplitCount(less, v, k, p);
    }
  }

  lemma SameMember(less: Less, v: Vec, k: Ptr, p: Pair)
    ensures p in Same(less, v, k) <==> p in v && KeyEqual(less, p.key, k)
  {
    SplitCount(less, v, k, p);
    assert p in v <==> multiset(v)[p] > 0;
    assert p in Same(less, v, k) <==> multiset(Same(less, v, k))[p] > 0;
  }

  lemma OthersMember(less: Less, v: Vec, k: Ptr, p: Pair)
    ensures p in Others(less, v, k) <==> p in v && !KeyEqual(less, p.key, k)
  {
    SplitCount(less, v, k, p);
    assert p in v <==> multiset(v)[p] > 0;
    assert p in Others(less, v, k) <==> multiset(Others(less, v, k))[p] > 0;
  }

  lemma {:induction false} OthersSorted(less: Less, v: Vec, k: Ptr)
    requires KeySorted(less, v)
    ensures KeySorted(less, Others(less, v, k))
  {
    if v != [] {
      var init, last := v[..|v|-1], v[|v|-1];
      OthersSorted(less, init, k);
      var o := Others(less, init, k);
      forall i | 0 <= i < |o| ensures !less(last.key, o[i].key) {
        OthersMember(less, init, k, o[i]);
        var j :| 0 <= j < |init| && init[j] == o[i];
        assert v[j] == o[i];
      }
    }
  }

  /** If no pair from position `p` on has key `k`, the split is decided before `p`. */
  lemma {:induction false} SplitSuffix(less: Less, v: Vec, k: Ptr, p: nat)
    requires p <= |v|
    requires forall i :: p <= i < |v| ==> !KeyEqual(less, v[i].key, k)
    ensures Same(less, v, k) == Same(less, v[..p], k)
    ensures Others(less, v, k) == Others(less, v[..p], k) + v[p..]
  {
    if p == |v| {
      assert v[..p] == v;
    } else {
      SplitSuffix(less, v[..|v|-1], k, p);
      assert v[..|v|-1][..p] == v[..p];
      assert v[..|v|-1][p..] + [v[|v|-1]] == v[p..];
    }
  }

  /** If every pair from position `p` on has key `k`, they all go to `Same`. */
  lemma {:induction false} SplitMatching(less: Less, v: Vec, k: Ptr, p: nat)
    requires p <= |v|
    requires forall i :: p <= i < |v| ==> KeyEqual(less, v[i].key, k)
    ensures Same(less, v, k) == Same(less, v[..p], k) + v[p..]
    ensures Others(less, v, k) == Others(less, v[..p], k)
  {
    if p == |v| {
      assert v[..p] == v;
    } else {
      SplitMatching(less, v[..|v|-1], k, p);
      assert v[..|v|-1][..p] == v[..p];
      assert v[..|v|-1][p..] + [v[|v|-1]] == v[p..];
    }
  }
}
