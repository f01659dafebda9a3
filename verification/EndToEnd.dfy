/** The engine against the sequential program: map every input, group the emitted pairs by key, reduce each group. */
module EndToEnd {
  import opened Keys
  import opened Sums
  import opened Shuffle
  import opened ShuffleTheorems
  import opened Protocol
  import opened ProtocolInvariant
  import opened Progress

  // ------------------------------------------------------------ the sequential program

  /** Everything the client's map emits on `inputs`, in input order. */
  function Emissions(mapper: Pair -> Vec, inputs: seq<Pair>): Vec {
    if inputs == [] then []
    else Emissions(mapper, inputs[..|inputs|-1]) + mapper(inputs[|inputs|-1])
  }

  /** Reduces the pairs of the first key, then those of the remaining keys. */
  function ReduceByKey(less: Less, reducer: Vec -> seq<Pair>, v: Vec): seq<Pair>
    requires forall k: Ptr :: !less(k, k)
    decreases |v|
  {
    if v == [] then []
    else
      var k := v[0].key;
      OthersShorter(less, v);
      reducer(Same(less, v, k)) + ReduceByKey(less, reducer, Others(less, v, k))
  }

  lemma OthersShorter(less: Less, v: Vec)
    requires v != [] && !less(v[0].key, v[0].key)
    ensures |Others(less, v, v[0].key)| < |v|
  {
    SplitMultiset(less, v, v[0].key);
    SameMember(less, v, v[0].key, v[0]);
    assert |multiset(v)| == |multiset(Same(less, v, v[0].key))| + |multiset(Others(less, v, v[0].key))|;
  }

  function Sequential(job: Job): seq<Pair>
    requires forall k: Ptr :: !job.less(k, k)
  {
    ReduceByKey(job.less, job.reducer, Emissions(job.mapper, job.inputs))
  }

  // ------------------------------------------------------------ map coverage

  /** The emissions of all threads below `n`. */
  ghost function ClaimedBelow(job: Job, claims: seq<nat>, n: nat): multiset<Pair>
    requires |claims| <= |job.inputs|
  {
    if n == 0 then multiset{} else ClaimedBelow(job, claims, n - 1) + Claimed(job, claims, n - 1)
  }

  lemma {:induction false} ClaimedBelowAppend(job: Job, claims: seq<nat>, t: nat, n: nat)
    requires |claims| < |job.inputs|
    ensures ClaimedBelow(job, claims + [t], n) ==
            if t < n then ClaimedBelow(job, claims, n) + multiset(job.mapper(job.inputs[|claims|]))
            else ClaimedBelow(job, claims, n)
  {
    if n > 0 {
      ClaimedBelowAppend(job, claims, t, n - 1);
      ClaimedAppend(job, claims, t, n - 1);
      JoinLater(ClaimedBelow(job, claims, n - 1), Claimed(job, claims, n - 1),
                multiset(job.mapper(job.inputs[|claims|])));
    }
  }

  lemma {:induction false} NothingClaimed(job: Job, n: nat)
    ensures ClaimedBelow(job, [], n) == multiset{}
  {
    if n > 0 {
      NothingClaimed(job, n - 1);
    }
  }

  /** However the inputs are shared out, together the threads emit what the sequential map emits. */
  lemma {:induction false} ClaimsCover(job: Job, claims: seq<nat>)
    requires |claims| <= |job.inputs| && forall k :: 0 <= k < |claims| ==> claims[k] < job.threads
    ensures ClaimedBelow(job, claims, job.threads) == multiset(Emissions(job.mapper, job.inputs[..|claims|]))
  {
    if claims == [] {
      NothingClaimed(job, job.threads);
    } else {
      var last := |claims| - 1;
      ClaimsCover(job, claims[..last]);
      ClaimedBelowAppend(job, claims[..last], claims[last], job.threads);
      assert claims == claims[..last] + [claims[last]];
      assert job.inputs[..|claims|][..last] == job.inputs[..last];
    }
  }

  lemma {:induction false} UnionOfClaimed(job: Job, claims: seq<nat>, vs: seq<Vec>, n: nat)
    requires |claims| <= |job.inputs| && n <= |vs|
    requires forall t :: 0 <= t < n ==> multiset(vs[t]) == Claimed(job, claims, t)
    ensures Union(vs[..n]) == ClaimedBelow(job, claims, n)
  {
    if n > 0 {
      UnionOfClaimed(job, claims, vs, n - 1);
      assert vs[..n] == vs[..n-1] + [vs[n-1]];
      UnionAppend(vs[..n-1], vs[n-1]);
    }
  }

  /** When the barrier opens, the private vectors together hold exactly the emissions of all inputs. */
  lemma MapCoverage(job: Job, claims: seq<nat>, vs: seq<Vec>)
    requires ValidJob(job) && Mapped(job, claims, vs)
    ensures Union(vs) == multiset(Emissions(job.mapper, job.inputs))
  {
    MappedMeans(job, claims, vs);
    UnionOfClaimed(job, claims, vs, |vs|);
    ClaimsCover(job, claims);
    assert vs[..|vs|] == vs && job.inputs[..|claims|] == job.inputs;
  }

  // ------------------------------------------------------------ groups and the sequential program

  /** The result of reduce, as a multiset, does not depend on the order of the pairs it is given. */
  ghost predicate OrderInsensitive(reducer: Vec -> seq<Pair>) {
    forall v: Vec, w: Vec {:trigger reducer(v), reducer(w)} ::
      multiset(v) == multiset(w) ==> multiset(reducer(v)) == multiset(reducer(w))
  }

  lemma GroupsHavePairs(gs: seq<Vec>)
    requires AllNonEmpty(gs)
    ensures gs != [] ==> |Union(gs)| > 0
  {
    if gs != [] {
      assert gs[0][0] in multiset(gs[0]);
      MSumContains(gs, 0, Pairs);
    }
  }

  /** With one group per key, group `j` is the selection of its key. */
  lemma GroupIsSelection(less: Less, gs: seq<Vec>, v: Vec, j: nat)
    requires StrictWeakOrder(less) && AllHomogeneous(less, gs) && AllNonEmpty(gs) && OneGroupPerKey(less, gs)
    requires Union(gs) == multiset(v) && j < |gs|
    ensures multiset(gs[j]) == multiset(Same(less, v, gs[j][0].key))
  {
    forall p: Pair ensures multiset(gs[j])[p] == multiset(Same(less, v, gs[j][0].key))[p] {
      GroupsComplete(less, gs, j, p);
      SplitCount(less, v, gs[j][0].key, p);
    }
  }

  /** Without group `j`, the groups cover what is left of `v` without that group's key. */
  lemma DropGroup(less: Less, gs: seq<Vec>, v: Vec, j: nat)
    requires StrictWeakOrder(less) && AllHomogeneous(less, gs) && AllNonEmpty(gs) && OneGroupPerKey(less, gs)
    requires Union(gs) == multiset(v) && j < |gs|
    ensures multiset(gs[j]) == multiset(Same(less, v, gs[j][0].key))
    ensures Union(gs[..j] + gs[j+1..]) == multiset(Others(less, v, gs[j][0].key))
  {
    var k := gs[j][0].key;
    GroupIsSelection(less, gs, v, j);
    MSumRemove(gs, j, Pairs);
    SplitMultiset(less, v, k);
    CancelLeft(Union(gs[..j] + gs[j+1..]), multiset(Others(less, v, k)), multiset(gs[j]));
  }

  lemma DropKeepsGroups(less: Less, gs: seq<Vec>, j: nat)
    requires AllHomogeneous(less, gs) && AllNonEmpty(gs) && OneGroupPerKey(less, gs) && j < |gs|
    ensures var rest := gs[..j] + gs[j+1..];
            AllHomogeneous(less, rest) && AllNonEmpty(rest) && OneGroupPerKey(less, rest)
  {
    var rest := gs[..j] + gs[j+1..];
    assert forall i :: 0 <= i < |rest| ==> rest[i] == gs[if i < j then i else i + 1];
  }

  /** Equivalent keys select the same pairs. */
  lemma {:induction false} EqualKeysSplitAlike(less: Less, v: Vec, k: Ptr, k': Ptr)
    requires StrictWeakOrder(less) && KeyEqual(less, k, k')
    ensures Same(less, v, k) == Same(less, v, k') && Others(less, v, k) == Others(less, v, k')
  {
    if v != [] {
      EqualKeysSplitAlike(less, v[..|v|-1], k, k');
      KeyEqualTrans(less, v[|v|-1].key, k, k');
    }
  }

  /** Any partition of the pairs into one group per key gives the output of the sequential program. */
  lemma {:induction false} GroupsGiveSequential(less: Less, reducer: Vec -> seq<Pair>, gs: seq<Vec>, v: Vec)
    requires StrictWeakOrder(less) && OrderInsensitive(reducer)
    requires AllHomogeneous(less, gs) && AllNonEmpty(gs) && OneGroupPerKey(less, gs)
    requires Union(gs) == multiset(v)
    ensures MSum(gs, ReduceOf(reducer)) == multiset(ReduceByKey(less, reducer, v))
    decreases |v|
  {
    GroupsHavePairs(gs);
    if v != [] {
      var k := v[0].key;
      assert v[0] in Union(gs);
      var j := MSumWitness(gs, Pairs, v[0]);
      var rest := gs[..j] + gs[j+1..];
      assert Homogeneous(less, gs[j]) && v[0] in gs[j];
      EqualKeysSplitAlike(less, v, k, gs[j][0].key);
      DropGroup(less, gs, v, j);
      DropKeepsGroups(less, gs, j);
      OthersShorter(less, v);
      GroupsGiveSequential(less, reducer, rest, Others(less, v, k));
      MSumRemove(gs, j, ReduceOf(reducer));
      assert multiset(reducer(gs[j])) == multiset(reducer(Same(less, v, k)));
    }
  }

  // ------------------------------------------------------------ and only such a partition does

  /** A reduce that emits one pair for each call. */
  function EmitOnce(v: Vec): seq<Pair> {
    [Pair(0, 0)]
  }

  lemma {:induction false} OnceForEach(gs: seq<Vec>)
    ensures |MSum(gs, ReduceOf(EmitOnce))| == |gs|
  {
    if gs != [] {
      OnceForEach(gs[1..]);
      assert ReduceOf(EmitOnce)(gs[0]) == multiset{Pair(0, 0)};
    }
  }

  /** Joins groups `i` and `j` into one. */
  function Merge(gs: seq<Vec>, i: nat, j: nat): seq<Vec>
    requires i < j < |gs|
  {
    (gs[..j] + gs[j+1..])[i := gs[i] + gs[j]]
  }

  lemma MergeKeeps(less: Less, gs: seq<Vec>, i: nat, j: nat)
    requires StrictWeakOrder(less) && AllHomogeneous(less, gs) && AllNonEmpty(gs)
    requires i < j < |gs| && KeyEqual(less, gs[i][0].key, gs[j][0].key)
    ensures AllHomogeneous(less, Merge(gs, i, j)) && AllNonEmpty(Merge(gs, i, j))
    ensures Union(Merge(gs, i, j)) == Union(gs) && |Merge(gs, i, j)| == |gs| - 1
  {
    var g, others, merged := gs[i] + gs[j], gs[..j] + gs[j+1..], Merge(gs, i, j);
    MSumRemove(gs, j, Pairs);
    MSumUpdate(others, i, g, Pairs);
    Rotate(multiset(gs[i]), multiset(gs[j]), Union(others));
    Cancel(Union(merged), Union(gs), multiset(gs[i]));
    MergedHomogeneous(less, gs[i], gs[j]);
    forall x | 0 <= x < |merged| ensures Homogeneous(less, merged[x]) {
      assert merged[x] == if x == i then g else if x < j then gs[x] else gs[x+1];
    }
  }

  lemma MergedHomogeneous(less: Less, g: Vec, h: Vec)
    requires StrictWeakOrder(less) && Homogeneous(less, g) && Homogeneous(less, h)
    requires KeyEqual(less, g[0].key, h[0].key)
    ensures Homogeneous(less, g + h)
  {
    forall p | p in g + h ensures KeyEqual(less, p.key, g[0].key) {
      if p in h {
        KeyEqualTrans(less, p.key, g[0].key, h[0].key);
      }
    }
  }

  /** There are never fewer groups than keys, and as many only with one group per key. */
  lemma {:induction false} GroupsAtLeastKeys(less: Less, gs: seq<Vec>, v: Vec)
    requires StrictWeakOrder(less) && AllHomogeneous(less, gs) && AllNonEmpty(gs) && Union(gs) == multiset(v)
    ensures |gs| >= |ReduceByKey(less, EmitOnce, v)|
    ensures |gs| == |ReduceByKey(less, EmitOnce, v)| ==> OneGroupPerKey(less, gs)
    decreases |gs|
  {
    if OneGroupPerKey(less, gs) {
      GroupsGiveSequential(less, EmitOnce, gs, v);
      OnceForEach(gs);
      assert |multiset(ReduceByKey(less, EmitOnce, v))| == |ReduceByKey(less, EmitOnce, v)|;
    } else {
      var i, j :| 0 <= i < j < |gs| && KeyEqual(less, gs[i][0].key, gs[j][0].key);
      MergeKeeps(less, gs, i, j);
      GroupsAtLeastKeys(less, Merge(gs, i, j), v);
    }
  }

  /** The groups of the shuffle give the sequential output for every order-insensitive reduce. */
  ghost predicate MatchesSequential(less: Less, gs: seq<Vec>, v: Vec)
    requires StrictWeakOrder(less)
  {
    forall reducer: Vec -> seq<Pair> {:trigger ReduceOf(reducer)} :: OrderInsensitive(reducer) ==>
      MSum(gs, ReduceOf(reducer)) == multiset(ReduceByKey(less, reducer, v))
  }

  lemma OneGroupPerKeyMatches(less: Less, gs: seq<Vec>, v: Vec)
    requires StrictWeakOrder(less) && AllHomogeneous(less, gs) && AllNonEmpty(gs) && Union(gs) == multiset(v)
    requires OneGroupPerKey(less, gs)
    ensures MatchesSequential(less, gs, v)
  {
    forall reducer: Vec -> seq<Pair> | OrderInsensitive(reducer)
      ensures MSum(gs, ReduceOf(reducer)) == multiset(ReduceByKey(less, reducer, v))
    {
      GroupsGiveSequential(less, reducer, gs, v);
    }
  }

  lemma MatchesOneGroupPerKey(less: Less, gs: seq<Vec>, v: Vec)
    requires StrictWeakOrder(less) && AllHomogeneous(less, gs) && AllNonEmpty(gs) && Union(gs) == multiset(v)
    requires MatchesSequential(less, gs, v)
    ensures OneGroupPerKey(less, gs)
  {
    var once: Vec -> seq<Pair> := EmitOnce;
    assert OrderInsensitive(once);
    assert MSum(gs, ReduceOf(once)) == multiset(ReduceByKey(less, once, v));
    OnceForEach(gs);
    assert |multiset(ReduceByKey(less, once, v))| == |ReduceByKey(less, once, v)|;
    GroupsAtLeastKeys(less, gs, v);
  }

  /** The exact condition, as a property of the vectors and the outer sort: the groups give the sequential output for
      every order-insensitive reduce if and only if the early break never skips a vector that holds its key. */
  lemma SequentialIff(less: Less, sorter: Sorter, vs: seq<Vec>, v: Vec)
    requires StrictWeakOrder(less) && Permutes(sorter) && AllNonEmpty(vs) && Union(vs) == multiset(v)
    ensures MatchesSequential(less, Groups(less, sorter, vs), v) <==> NeverSkips(less, sorter, vs)
  {
    var gs := Groups(less, sorter, vs);
    GroupsPartition(less, sorter, vs);
    OneGroupPerKeyIff(less, sorter, vs);
    if OneGroupPerKey(less, gs) {
      OneGroupPerKeyMatches(less, gs, v);
    }
    if MatchesSequential(less, gs, v) {
      MatchesOneGroupPerKey(less, gs, v);
    }
  }

  // ------------------------------------------------------------ end to end

  /** What any finished run, under any schedule and any outer order, has written: one reduce for each group of a
      partition of all emissions into single-key groups. */
  lemma FinishedRun(job: Job, s: State)
    requires ValidJob(job) && Inv(job, s) && AllReturned(s)
    ensures multiset(s.output) == MSum(s.pushed, ReduceOf(job.reducer))
    ensures Union(s.pushed) == multiset(Emissions(job.mapper, job.inputs))
    ensures AllHomogeneous(job.less, s.pushed)
    ensures forall k :: Holders(job.less, s.pushed, k) <= job.threads
  {
    FinalState(job, s);
    var vs := NonEmpty(s.atOpen);
    NonEmptyKeeps(job.less, s.atOpen);
    MapCoverage(job, s.claims, s.atOpen);
    GroupsPartition(job.less, job.sortVectors, vs);
    forall k ensures Holders(job.less, s.pushed, k) <= job.threads {
      SplitBound(job.less, job.sortVectors, vs, k);
    }
  }

  /** A finished run has written what the sequential program writes if the early break never lost a pair. */
  lemma FinishedRunIsSequential(job: Job, s: State)
    requires ValidJob(job) && Inv(job, s) && AllReturned(s) && OrderInsensitive(job.reducer)
    requires NeverSkips(job.less, job.sortVectors, NonEmpty(s.atOpen))
    ensures multiset(s.output) == multiset(Sequential(job))
  {
    FinalState(job, s);
    FinishedRun(job, s);
    OneGroupPerKeyIff(job.less, job.sortVectors, NonEmpty(s.atOpen));
    GroupsGiveSequential(job.less, job.reducer, s.pushed, Emissions(job.mapper, job.inputs));
  }

  /** For a finished run the condition is exact: the groups it reduced give the sequential output for every
      order-insensitive reduce if and only if the early break skipped no vector that held the current key. */
  lemma FinishedRunIff(job: Job, s: State)
    requires ValidJob(job) && Inv(job, s) && AllReturned(s)
    ensures MatchesSequential(job.less, s.pushed, Emissions(job.mapper, job.inputs))
       <==> NeverSkips(job.less, job.sortVectors, NonEmpty(s.atOpen))
  {
    FinalState(job, s);
    NonEmptyKeeps(job.less, s.atOpen);
    MapCoverage(job, s.claims, s.atOpen);
    SequentialIff(job.less, job.sortVectors, NonEmpty(s.atOpen), Emissions(job.mapper, job.inputs));
  }

  /** The outer sort brings the heads of all key-sorted vectors into key order. */
  ghost predicate SortsByKey(less: Less, sorter: Sorter) {
    && Permutes(sorter)
    && forall vs :: WellFormed(less, vs) ==> HeadsSorted(less, Sorted(sorter, vs))
  }

  lemma {:induction false} SortedByKeyInOrder(less: Less, sorter: Sorter, vs: seq<Vec>)
    requires StrictWeakOrder(less) && SortsByKey(less, sorter) && WellFormed(less, vs)
    ensures HeadsInOrder(less, sorter, vs)
    decreases |Union(vs)|
  {
    if vs != [] {
      RoundShrinks(less, sorter, vs);
      RestWellFormed(less, Sorted(sorter, vs));
      SortedByKeyInOrder(less, sorter, Rest(less, Sorted(sorter, vs)));
    }
  }

  /** With the outer sort by key, as intended: for every number of threads and every schedule, a finished run has
      written the output of the sequential program, and reduced the keys in groups of ascending order. */
  lemma KeyOrderedRunIsSequential(job: Job, s: State)
    requires ValidJob(job) && Inv(job, s) && AllReturned(s) && OrderInsensitive(job.reducer)
    requires SortsByKey(job.less, job.sortVectors)
    ensures multiset(s.output) == multiset(Sequential(job))
    ensures AllNonEmpty(s.pushed) && AscendingKeys(job.less, s.pushed)
  {
    FinalState(job, s);
    NonEmptyKeeps(job.less, s.atOpen);
    SortedByKeyInOrder(job.less, job.sortVectors, NonEmpty(s.atOpen));
    KeyOrderAscends(job.less, job.sortVectors, NonEmpty(s.atOpen));
    FinishedRunIsSequential(job, s);
  }

  /** Every run, under every schedule that only names threads able to step, ends with the sequential output. */
  lemma EveryRunIsSequential(job: Job, choice: nat -> nat) returns (end: nat)
    requires ValidJob(job) && OrderInsensitive(job.reducer) && SortsByKey(job.less, job.sortVectors)
    requires forall i: nat :: AllReturned(StateAt(job, choice, i)) || Enabled(StateAt(job, choice, i), choice(i))
    ensures AllReturned(StateAt(job, choice, end))
    ensures multiset(StateAt(job, choice, end).output) == multiset(Sequential(job))
  {
    end := EveryRunReturns(job, choice, 0);
    KeyOrderedRunIsSequential(job, StateAt(job, choice, end));
  }
}
