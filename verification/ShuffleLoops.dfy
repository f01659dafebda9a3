/** The loops of `shufflePhase`, proved against the functions of module Shuffle. */
module ShuffleLoops {
  import opened Keys
  import opened Sums
  import opened Shuffle

  lemma {:induction false} BreakAtIs(less: Less, vs: seq<Vec>, k: Ptr, m: nat)
    requires AllNonEmpty(vs) && m <= |vs|
    requires forall i :: 0 <= i < m ==> !less(k, vs[i][0].key)
    requires m < |vs| ==> less(k, vs[m][0].key)
    ensures BreakAt(less, vs, k) == m
  {
    if m > 0 {
      assert forall i :: 0 <= i < m - 1 ==> vs[1..][i] == vs[i+1];
      BreakAtIs(less, vs[1..], k, m - 1);
    }
  }

  /** The pairs with key `k` stand next to each other. */
  ghost predicate Contiguous(less: Less, v: Vec, k: Ptr) {
    exists lo, hi :: RunAt(less, v, k, lo, hi)
  }

  ghost predicate RunAt(less: Less, v: Vec, k: Ptr, lo: int, hi: int) {
    forall i :: 0 <= i < |v| ==> (KeyEqual(less, v[i].key, k) <==> lo <= i < hi)
  }

  /** In a key-sorted vector everything before some point is below `k` and everything from there on is not. */
  lemma FirstNotBelow(less: Less, v: Vec, k: Ptr) returns (lo: nat)
    requires StrictWeakOrder(less) && KeySorted(less, v)
    ensures lo <= |v|
    ensures forall i :: 0 <= i < lo ==> less(v[i].key, k)
    ensures forall i :: lo <= i < |v| ==> !less(v[i].key, k)
  {
    lo := 0;
    while lo < |v| && less(v[lo].key, k)
      invariant lo <= |v| && forall i :: 0 <= i < lo ==> less(v[i].key, k)
    {
      lo := lo + 1;
    }
    forall i | lo <= i < |v| ensures !less(v[i].key, k) {
      if i > lo && less(v[i].key, k) {
        LessTrans(less, v[lo].key, v[i].key, k);
      }
    }
  }

  lemma FirstAbove(less: Less, v: Vec, k: Ptr) returns (hi: nat)
    requires StrictWeakOrder(less) && KeySorted(less, v)
    ensures hi <= |v|
    ensures forall i :: 0 <= i < hi ==> !less(k, v[i].key)
    ensures forall i :: hi <= i < |v| ==> less(k, v[i].key)
  {
    hi := |v|;
    while hi > 0 && less(k, v[hi-1].key)
      invariant hi <= |v| && forall i :: hi <= i < |v| ==> less(k, v[i].key)
    {
      hi := hi - 1;
    }
    forall i | 0 <= i < hi ensures !less(k, v[i].key) {
      if i < hi - 1 {
        NotLessTrans(less, v[i].key, v[hi-1].key, k);
      }
    }
  }

  /** On a key-sorted vector the pairs of one key form a contiguous run; everything before it is below the key,
      everything after it is above. The rest stays sorted. */
  lemma SortedRun(less: Less, v: Vec, k: Ptr) returns (lo: nat, hi: nat)
    requires StrictWeakOrder(less) && KeySorted(less, v)
    ensures lo <= hi <= |v| && RunAt(less, v, k, lo, hi)
    ensures Same(less, v, k) == v[lo..hi] && Others(less, v, k) == v[..lo] + v[hi..]
    ensures forall i :: 0 <= i < lo ==> less(v[i].key, k)
    ensures forall i :: hi <= i < |v| ==> less(k, v[i].key)
    ensures KeySorted(less, Others(less, v, k))
  {
    lo := FirstNotBelow(less, v, k);
    hi := FirstAbove(less, v, k);
    if hi < lo {
      LessAntisymmetric(less, v[hi].key, k);
      assert false;
    }
    forall i | 0 <= i < |v| ensures KeyEqual(less, v[i].key, k) <==> lo <= i < hi {
    }
    RunSplit(less, v, k, lo, hi);
    OthersSorted(less, v, k);
  }

  lemma RunSplit(less: Less, v: Vec, k: Ptr, lo: nat, hi: nat)
    requires lo <= hi <= |v| && RunAt(less, v, k, lo, hi)
    ensures Same(less, v, k) == v[lo..hi] && Others(less, v, k) == v[..lo] + v[hi..]
  {
    SplitSuffix(less, v, k, hi);
    SplitMatching(less, v[..hi], k, lo);
    assert v[..hi][..lo] == v[..lo] && v[..hi][lo..] == v[lo..hi];
    SplitSuffix(less, v[..lo], k, 0);
    assert v[..lo][..0] == [] && v[..lo][0..] == v[..lo];
  }

  /** The innermost loop meets a pair with key `k`: it moves from the vector to the run. */
  lemma EraseMatch(less: Less, v: Vec, k: Ptr, p: nat, seen: Vec)
    requires p < |v| && seen == Others(less, v[..p], k) && KeyEqual(less, v[p].key, k)
    ensures Others(less, v[..p+1], k) == seen
    ensures Same(less, v[..p+1], k) == Same(less, v[..p], k) + [v[p]]
    ensures (seen + v[p..])[..|seen|] + (seen + v[p..])[|seen|+1..] == seen + v[p+1..]
  {
    assert v[..p+1][..p] == v[..p];
  }

  /** It meets another pair: it steps over it. */
  lemma EraseSkip(less: Less, v: Vec, k: Ptr, p: nat, seen: Vec)
    requires p < |v| && seen == Others(less, v[..p], k) && !KeyEqual(less, v[p].key, k)
    ensures Others(less, v[..p+1], k) == seen + [v[p]]
    ensures Same(less, v[..p+1], k) == Same(less, v[..p], k)
    ensures seen + v[p..] == (seen + [v[p]]) + v[p+1..]
  {
    assert v[..p+1][..p] == v[..p];
  }

  /** The middle loop has scanned one more vector: what it gives to the group and leaves behind. */
  lemma ScanStep(less: Less, ord: seq<Vec>, k: Ptr, p: nat)
    requires p < |ord|
    ensures Collect(less, ord[..p+1], k) == Collect(less, ord[..p], k) + Same(less, ord[p], k)
    ensures Remaining(less, ord[..p+1], k) ==
            if Others(less, ord[p], k) == [] then Remaining(less, ord[..p], k)
            else Remaining(less, ord[..p], k) + [Others(less, ord[p], k)]
  {
    assert ord[..p+1][..p] == ord[..p];
  }

  /** Replacing and then dropping, or keeping, the vector under the iterator. */
  lemma ReplaceAt(seen: seq<Vec>, ahead: seq<Vec>, rest: Vec)
    requires ahead != []
    ensures var left := (seen + ahead)[|seen| := rest];
            && left[..|seen|] + left[|seen|+1..] == seen + ahead[1..]
            && left == (seen + [rest]) + ahead[1..]
  {
  }

  lemma SortedContiguous(less: Less, v: Vec, k: Ptr)
    requires StrictWeakOrder(less) && KeySorted(less, v)
    ensures Contiguous(less, v, k)
  {
    var lo, hi := SortedRun(less, v, k);
  }

  /** The innermost loop: moves the pairs of `vec` with key `currKey` into a run by erasing them one at a time, and
      stops at the first other pair after them. */
  method EraseRun(less: Less, vec: Vec, currKey: Ptr) returns (run: Vec, left: Vec)
    requires Contiguous(less, vec, currKey)
    ensures run == Same(less, vec, currKey) && left == Others(less, vec, currKey)
  {
    run, left := [], vec;
    var keyIter := 0;
    var visitedKey := false;
    ghost var lo, hi :| RunAt(less, vec, currKey, lo, hi);
    ghost var p := 0;
    while keyIter < |left|
      invariant p == keyIter + |run| <= |vec|
      invariant run == Same(less, vec[..p], currKey)
      invariant keyIter == |Others(less, vec[..p], currKey)|
      invariant left == Others(less, vec[..p], currKey) + vec[p..]
      invariant visitedKey ==> lo < p
      invariant !visitedKey ==> run == []
      decreases |vec| - p
    {
      ghost var seen := Others(less, vec[..p], currKey);
      assert left[keyIter] == vec[p];
      if KeyEqual(less, left[keyIter].key, currKey) {
        EraseMatch(less, vec, currKey, p, seen);
        visitedKey := true;
        run := run + [left[keyIter]];
        left := left[..keyIter] + left[keyIter+1..];
        p := p + 1;
      } else if visitedKey {
        break;
      } else {
        EraseSkip(less, vec, currKey, p, seen);
        keyIter := keyIter + 1;
        p := p + 1;
      }
    }
    SplitSuffix(less, vec, currKey, p);
  }

  /** One round of the outer loop: sort the vectors, pick the key of the first head, scan up to the break. */
  method Round(less: Less, sorter: Sorter, vectors: seq<Vec>) returns (shuffleVec: Vec, left: seq<Vec>)
    requires StrictWeakOrder(less) && Permutes(sorter) && WellFormed(less, vectors) && vectors != []
    ensures shuffleVec == Group(less, Sorted(sorter, vectors))
    ensures left == Rest(less, Sorted(sorter, vectors))
  {
    left := sorter(vectors);
    ghost var ord: seq<Vec> := Sorted(sorter, vectors);
    assert left == ord;
    var currKey := left[0][0].key;
    shuffleVec := [];
    var vecIter := 0;
    ghost var p := 0;
    while vecIter < |left|
      invariant p <= |ord|
      invariant forall i :: 0 <= i < p ==> !less(currKey, ord[i][0].key)
      invariant shuffleVec == Collect(less, ord[..p], currKey)
      invariant vecIter == |Remaining(less, ord[..p], currKey)|
      invariant left == Remaining(less, ord[..p], currKey) + ord[p..]
      decreases |ord| - p
    {
      ghost var seen := Remaining(less, ord[..p], currKey);
      assert left[vecIter] == ord[p] && ord[p..][1..] == ord[p+1..];
      if less(currKey, left[vecIter][0].key) {
        break;
      }
      SortedContiguous(less, left[vecIter], currKey);
      var run, rest := EraseRun(less, left[vecIter], currKey);
      ScanStep(less, ord, currKey, p);
      ReplaceAt(seen, ord[p..], rest);
      shuffleVec := shuffleVec + run;
      left := left[vecIter := rest];
      if left[vecIter] == [] {
        left := left[..vecIter] + left[vecIter+1..];
      } else {
        vecIter := vecIter + 1;
      }
      p := p + 1;
    }
    BreakAtIs(less, ord, currKey, p);
  }

  /** One round takes the next group off the front of what is still to be pushed. */
  lemma NextGroup(less: Less, sorter: Sorter, vs: seq<Vec>, pushed: seq<Vec>)
    requires StrictWeakOrder(less) && Permutes(sorter) && WellFormed(less, vs) && vs != []
    ensures var ord := Sorted(sorter, vs);
            var left := Rest(less, ord);
            && WellFormed(less, left) && |Union(left)| < |Union(vs)|
            && pushed + Groups(less, sorter, vs) == (pushed + [Group(less, ord)]) + Groups(less, sorter, left)
  {
    var ord: seq<Vec> := Sorted(sorter, vs);
    RoundShrinks(less, sorter, vs);
    RestWellFormed(less, ord);
    assert Groups(less, sorter, vs) == [Group(less, ord)] + Groups(less, sorter, Rest(less, ord));
  }

  lemma AppendLater(a: seq<Vec>, b: seq<Vec>, v: Vec)
    ensures (a + b) + [v] == a + (b + [v])
  {
  }

  /** What thread 0 works on in `shufflePhase`. */
  class ShuffleContext {
    const less: Less
    const sorter: Sorter
    var intermediateVectors: seq<Vec>
    var shuffleVectors: seq<Vec>
    var semaphore: nat
    var isShuffleDone: bool

    constructor (less: Less, sorter: Sorter, vectors: seq<Vec>)
      ensures this.less == less && this.sorter == sorter && intermediateVectors == vectors
      ensures shuffleVectors == [] && semaphore == 0 && !isShuffleDone
    {
      this.less, this.sorter := less, sorter;
      intermediateVectors, shuffleVectors, semaphore, isShuffleDone := vectors, [], 0, false;
    }

    /** The whole phase, as long as no other thread takes from the queue or the semaphore meanwhile: all groups are
        pushed in order, each is announced by one post, and one post for each thread follows. */
    method ShufflePhase()
      requires StrictWeakOrder(less) && Permutes(sorter) && AllSorted(less, intermediateVectors)
      modifies this
      ensures shuffleVectors == old(shuffleVectors) + Groups(less, sorter, NonEmpty(old(intermediateVectors)))
      ensures semaphore == old(semaphore) + |Groups(less, sorter, NonEmpty(old(intermediateVectors)))|
                           + |old(intermediateVectors)|
      ensures isShuffleDone && intermediateVectors == []
    {
      var threadNum := |intermediateVectors|;
      ghost var plan := Groups(less, sorter, NonEmpty(intermediateVectors));
      NonEmptyKeeps(less, intermediateVectors);
      intermediateVectors := NonEmpty(intermediateVectors);
      ghost var pushed: seq<Vec> := [];
      while intermediateVectors != []
        invariant WellFormed(less, intermediateVectors)
        invariant plan == pushed + Groups(less, sorter, intermediateVectors)
        invariant shuffleVectors == old(shuffleVectors) + pushed
        invariant semaphore == old(semaphore) + |pushed|
        decreases |Union(intermediateVectors)|
      {
        NextGroup(less, sorter, intermediateVectors, pushed);
        var shuffleVec, left := Round(less, sorter, intermediateVectors);
        AppendLater(old(shuffleVectors), pushed, shuffleVec);
        intermediateVectors := left;
        shuffleVectors := shuffleVectors + [shuffleVec];
        pushed := pushed + [shuffleVec];
        semaphore := semaphore + 1;
      }
      assert plan == pushed;
      isShuffleDone := true;
      PostEach(threadNum);
    }

    /** The final posts, one for each thread. */
    method PostEach(threadNum: nat)
      modifies this`semaphore
      ensures semaphore == old(semaphore) + threadNum
    {
      for i := 0 to threadNum
        invariant semaphore == old(semaphore) + i
      {
        semaphore := semaphore + 1;
      }
    }
  }
}
