/** A stable sort by insertion. It shows that the sorts the engine relies on exist, so that no theorem about jobs
    speaks of nothing. */
module Sorts {
  import opened Keys
  import opened Shuffle
  import opened ShuffleTheorems
  import opened Protocol
  import opened EndToEnd
  import opened Law
  import opened AddressOrder

  /** The part of a strict weak order that sorting by insertion needs. */
  ghost predicate StrictOrder<T(!new)>(before: (T, T) -> bool) {
    && (forall x :: !before(x, x))
    && (forall x, y, z {:trigger before(x, y), before(y, z)} :: before(x, y) && before(y, z) ==> before(x, z))
  }

  ghost predicate SortedBy<T>(before: (T, T) -> bool, xs: seq<T>) {
    forall i, j :: 0 <= i < j < |xs| ==> !before(xs[j], xs[i])
  }

  function Insert<T>(before: (T, T) -> bool, x: T, xs: seq<T>): seq<T> {
    if xs == [] || before(x, xs[0]) then [x] + xs
    else [xs[0]] + Insert(before, x, xs[1..])
  }

  function Sort<T>(before: (T, T) -> bool, xs: seq<T>): seq<T> {
    if xs == [] then [] else Insert(before, xs[0], Sort(before, xs[1..]))
  }

  lemma {:induction false} InsertAdds<T(!new)>(before: (T, T) -> bool, x: T, xs: seq<T>)
    ensures multiset(Insert(before, x, xs)) == multiset{x} + multiset(xs)
  {
    if xs != [] && !before(x, xs[0]) {
      InsertAdds(before, x, xs[1..]);
      assert xs == [xs[0]] + xs[1..];
    }
  }

  lemma {:induction false} InsertSorts<T(!new)>(before: (T, T) -> bool, x: T, xs: seq<T>)
    requires StrictOrder(before) && SortedBy(before, xs)
    ensures SortedBy(before, Insert(before, x, xs))
  {
    if xs == [] || before(x, xs[0]) {
      forall j | 0 <= j < |xs| ensures !before(xs[j], x) {
      }
    } else {
      InsertSorts(before, x, xs[1..]);
      InsertAdds(before, x, xs[1..]);
      var rest := Insert(before, x, xs[1..]);
      forall j | 0 <= j < |rest| ensures !before(rest[j], xs[0]) {
        assert rest[j] in multiset(rest);
        if rest[j] != x {
          assert rest[j] in xs[1..];
        }
      }
    }
  }

  lemma {:induction false} SortSorts<T(!new)>(before: (T, T) -> bool, xs: seq<T>)
    ensures multiset(Sort(before, xs)) == multiset(xs)
    ensures StrictOrder(before) ==> SortedBy(before, Sort(before, xs))
  {
    if xs != [] {
      SortSorts(before, xs[1..]);
      InsertAdds(before, xs[0], Sort(before, xs[1..]));
      if StrictOrder(before) {
        InsertSorts(before, xs[0], Sort(before, xs[1..]));
      }
      assert xs == [xs[0]] + xs[1..];
    }
  }

  /** `intermediatePairComp`. */
  function PairBefore(less: Less): (Pair, Pair) -> bool {
    (p: Pair, q: Pair) => less(p.key, q.key)
  }

  /** The comparison of heads that puts the vectors into key order. */
  function HeadBefore(less: Less): (Vec, Vec) -> bool {
    (v: Vec, w: Vec) => v != [] && w != [] && less(v[0].key, w[0].key)
  }

  function SortPairs(less: Less): Vec -> Vec {
    (v: Vec) => Sort(PairBefore(less), v)
  }

  function SortHeads(less: Less): Sorter {
    (vs: seq<Vec>) => Sort(HeadBefore(less), vs)
  }

  /** For every client, input and number of threads there is a job whose sorts are as required. */
  lemma JobsExist(less: Less, mapper: Pair -> Vec, reducer: Vec -> seq<Pair>, inputs: seq<Pair>, n: nat)
    requires StrictWeakOrder(less) && n >= 1
    ensures var job := Job(less, mapper, reducer, SortPairs(less), SortHeads(less), inputs, n);
            ValidJob(job) && SortsByKey(job.less, job.sortVectors)
  {
    var job := Job(less, mapper, reducer, SortPairs(less), SortHeads(less), inputs, n);
    var pairs, heads := PairBefore(less), HeadBefore(less);
    assert StrictOrder(pairs) && StrictOrder(heads);
    forall v: Vec ensures multiset(job.sortPairs(v)) == multiset(v) && KeySorted(less, job.sortPairs(v)) {
      SortSorts(pairs, v);
      assert SortedBy(pairs, job.sortPairs(v));
    }
    forall vs: seq<Vec> ensures multiset(job.sortVectors(vs)) == multiset(vs) {
      SortSorts(heads, vs);
    }
    forall vs | WellFormed(less, vs) ensures HeadsSorted(less, Sorted(job.sortVectors, vs)) {
      SortSorts(heads, vs);
      assert SortedBy(heads, Sorted(job.sortVectors, vs));
    }
  }

  /** `vectorComp`, on all vectors. */
  predicate VectorBefore(v: Vec, w: Vec) {
    v != [] && w != [] && VectorComp(v, w)
  }

  function SortVectors(vs: seq<Vec>): seq<Vec> {
    Sort(VectorBefore, vs)
  }

  /** There is a sort by address, too. */
  lemma AddressSortExists()
    ensures SortsByAddress(SortVectors)
  {
    var before: (Vec, Vec) -> bool := VectorBefore;
    assert StrictOrder(before);
    forall vs: seq<Vec> ensures multiset(SortVectors(vs)) == multiset(vs) && SortedBy(before, SortVectors(vs)) {
      SortSorts(before, vs);
    }
  }

  /** A map that emits its input as it is. */
  function Single(p: Pair): Vec {
    [p]
  }

  /** A program that breaks the law: three threads, three inputs, the outer sort by address as written. */
  lemma SampleJobBreaksLaw()
    ensures var job := Job(SampleLess, Single, EmitOnce, SortPairs(SampleLess), SortVectors, SAMPLE, 3);
            ValidJob(job) && SortsByAddress(job.sortVectors) && !MeetsLaw(job)
  {
    SampleIsStrictWeakOrder();
    JobsExist(SampleLess, Single, EmitOnce, SAMPLE, 3);
    AddressSortExists();
    SampleBreaksLaw(Job(SampleLess, Single, EmitOnce, SortPairs(SampleLess), SortVectors, SAMPLE, 3));
  }
}
