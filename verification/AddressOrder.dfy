/** The comparison of the outer sort as written: it orders the vectors by the addresses of their head keys. Exactly
    which emitted pairs it is good enough for, and a run for all others. */
module AddressOrder {
  import opened Keys
  import opened Sums
  import opened Shuffle
  import opened ShuffleTheorems
  import opened Protocol
  import opened ProtocolInvariant
  import opened EndToEnd
  import opened Law

  /** `operator<` of `std::pair<K2*, V2*>`: it compares addresses, not keys. */
  predicate AddressLess(a: Pair, b: Pair) {
    a.key < b.key || (!(b.key < a.key) && a.value < b.value)
  }

  /** `vectorComp`. */
  predicate VectorComp(v: Vec, w: Vec)
    requires v != [] && w != []
  {
    AddressLess(v[0], w[0])
  }

  /** `std::sort` with `vectorComp`. */
  ghost predicate SortsByAddress(sorter: Sorter) {
    && Permutes(sorter)
    && forall vs: seq<Vec>, i, j :: AllNonEmpty(vs) && 0 <= i < j < |Sorted(sorter, vs)|
                                   ==> !VectorComp(Sorted(sorter, vs)[j], Sorted(sorter, vs)[i])
  }

  /** Among the pairs `ps`, `q` and `r` share a key, `p` with a higher key lies behind `q` in memory, and behind `p`
      lies `h`, whose key is not higher. */
  ghost predicate Tangled(less: Less, ps: multiset<Pair>, q: Pair, r: Pair, p: Pair, h: Pair) {
    && q in ps && r in ps - multiset{q} && KeyEqual(less, q.key, r.key)
    && p in ps && h in ps && q.key < p.key < h.key && less(q.key, p.key) && !less(q.key, h.key)
  }

  ghost predicate Untangled(less: Less, ps: multiset<Pair>) {
    forall q, r, p, h :: !Tangled(less, ps, q, r, p, h)
  }

  // ------------------------------------------------------------ enough: untangled pairs, or two vectors

  lemma UntangledPart(less: Less, ps: multiset<Pair>, part: multiset<Pair>)
    requires Untangled(less, ps) && part <= ps
    ensures Untangled(less, part)
  {
    forall q, r, p, h ensures !Tangled(less, part, q, r, p, h) {
      assert !Tangled(less, ps, q, r, p, h);
      assert part - multiset{q} <= ps - multiset{q};
    }
  }

  /** A pair of a sorted vector whose head is above `k` is above `k`. */
  lemma HeadAbove(less: Less, v: Vec, k: Ptr, j: nat)
    requires StrictWeakOrder(less) && KeySorted(less, v) && j < |v| && less(k, v[0].key)
    ensures less(k, v[j].key)
  {
    if j > 0 {
      LessNotLess(less, k, v[0].key, v[j].key);
    }
  }

  /** What a skipped pair needs: a head above the current key in a vector between its own and the first. */
  lemma SkipNeedsThree(less: Less, ord: seq<Vec>, i: nat, j: nat)
    requires StrictWeakOrder(less) && WellFormed(less, ord) && ord != []
    requires BreakAt(less, ord, ord[0][0].key) <= i < |ord| && j < |ord[i]|
    requires KeyEqual(less, ord[i][j].key, ord[0][0].key)
    ensures 0 < BreakAt(less, ord, ord[0][0].key) < i && !less(ord[0][0].key, ord[i][0].key)
  {
    if less(ord[0][0].key, ord[i][0].key) {
      HeadAbove(less, ord[i], ord[0][0].key, j);
    }
  }

  /** The heads are in memory order, and a pair of a later vector is one besides the first head. */
  lemma HeadsInMemory(ord: seq<Vec>, m: nat, i: nat, j: nat)
    requires AllNonEmpty(ord) && 0 < m < i < |ord| && j < |ord[i]|
    requires forall i, j :: 0 <= i < j < |ord| ==> !VectorComp(ord[j], ord[i])
    ensures ord[0][0].key <= ord[m][0].key <= ord[i][0].key
    ensures ord[0][0] in Union(ord) && ord[m][0] in Union(ord) && ord[i][0] in Union(ord)
    ensures ord[i][j] in Union(ord) - multiset{ord[0][0]}
  {
    assert !VectorComp(ord[m], ord[0]) && !VectorComp(ord[i], ord[m]);
    HoldingUnion(ord, ord[0][0]);
    HoldingUnion(ord, ord[m][0]);
    HoldingUnion(ord, ord[i][0]);
    assert ord[1..][i-1] == ord[i];
    HoldingUnion(ord[1..], ord[i][j]);
    assert Union(ord) == multiset(ord[0]) + Union(ord[1..]);
  }

  lemma SkipIsTangled(less: Less, ord: seq<Vec>, i: nat, j: nat)
    requires StrictWeakOrder(less) && WellFormed(less, ord) && ord != []
    requires forall i, j :: 0 <= i < j < |ord| ==> !VectorComp(ord[j], ord[i])
    requires BreakAt(less, ord, ord[0][0].key) <= i < |ord| && j < |ord[i]|
    requires KeyEqual(less, ord[i][j].key, ord[0][0].key)
    ensures !Untangled(less, Union(ord))
  {
    SkipNeedsThree(less, ord, i, j);
    var m := BreakAt(less, ord, ord[0][0].key);
    HeadsInMemory(ord, m, i, j);
    assert Tangled(less, Union(ord), ord[0][0], ord[i][j], ord[m][0], ord[i][0]);
  }

  lemma UntangledRound(less: Less, ord: seq<Vec>)
    requires StrictWeakOrder(less) && WellFormed(less, ord) && ord != [] && Untangled(less, Union(ord))
    requires forall i, j :: 0 <= i < j < |ord| ==> !VectorComp(ord[j], ord[i])
    ensures BreakLosesNothing(less, ord)
  {
    var k := ord[0][0].key;
    forall i, j | BreakAt(less, ord, k) <= i < |ord| && 0 <= j < |ord[i]| ensures !KeyEqual(less, ord[i][j].key, k) {
      if KeyEqual(less, ord[i][j].key, k) {
        SkipIsTangled(less, ord, i, j);
      }
    }
  }

  /** Untangled pairs: sorting by address loses no pair in any round, however the pairs are spread over vectors. */
  lemma {:induction false} UntangledNeverSkips(less: Less, sorter: Sorter, vs: seq<Vec>)
    requires StrictWeakOrder(less) && SortsByAddress(sorter) && WellFormed(less, vs) && Untangled(less, Union(vs))
    ensures NeverSkips(less, sorter, vs)
    decreases |Union(vs)|
  {
    if vs != [] {
      var ord: seq<Vec> := Sorted(sorter, vs);
      UntangledRound(less, ord);
      RoundShrinks(less, sorter, vs);
      RoundKeeps(less, ord);
      RestWellFormed(less, ord);
      UntangledPart(less, Union(vs), Union(Rest(less, ord)));
      UntangledNeverSkips(less, sorter, Rest(less, ord));
    }
  }

  lemma {:induction false} RemainingShorter(less: Less, vs: seq<Vec>, k: Ptr)
    ensures |Remaining(less, vs, k)| <= |vs|
  {
    if vs != [] {
      RemainingShorter(less, vs[..|vs|-1], k);
    }
  }

  /** Two vectors: no outer order loses a pair. */
  lemma {:induction false} TwoNeverSkip(less: Less, sorter: Sorter, vs: seq<Vec>)
    requires StrictWeakOrder(less) && Permutes(sorter) && WellFormed(less, vs) && |vs| <= 2
    ensures NeverSkips(less, sorter, vs)
    decreases |Union(vs)|
  {
    if vs != [] {
      var ord: seq<Vec> := Sorted(sorter, vs);
      var m := BreakAt(less, ord, ord[0][0].key);
      forall i, j | m <= i < |ord| && 0 <= j < |ord[i]| ensures !KeyEqual(less, ord[i][j].key, ord[0][0].key) {
        if KeyEqual(less, ord[i][j].key, ord[0][0].key) {
          SkipNeedsThree(less, ord, i, j);
        }
      }
      RoundShrinks(less, sorter, vs);
      RestWellFormed(less, ord);
      RemainingShorter(less, ord[..m], ord[0][0].key);
      TwoNeverSkip(less, sorter, Rest(less, ord));
    }
  }

  /** With at most two threads, or untangled pairs, no way to share out the inputs makes the shuffle lose a pair. */
  lemma UntangledNoShareSkips(job: Job)
    requires ValidJob(job) && SortsByAddress(job.sortVectors)
    requires job.threads <= 2 || Untangled(job.less, multiset(Emissions(job.mapper, job.inputs)))
    ensures NoShareSkips(job)
  {
    forall claims | Shared(job, claims) ensures NeverSkips(job.less, job.sortVectors, NonEmpty(Shares(job, claims))) {
      var vs := Shares(job, claims);
      MappedMeans(job, claims, vs);
      NonEmptyKeeps(job.less, vs);
      MapCoverage(job, claims, vs);
      if job.threads <= 2 {
        TwoNeverSkip(job.less, job.sortVectors, NonEmpty(vs));
      } else {
        UntangledNeverSkips(job.less, job.sortVectors, NonEmpty(vs));
      }
    }
  }

  /** The code as written meets the law for at most two threads, and for untangled pairs. */
  lemma AddressOrderedRunIsSequential(job: Job, s: State)
    requires ValidJob(job) && Inv(job, s) && AllReturned(s) && OrderInsensitive(job.reducer)
    requires SortsByAddress(job.sortVectors)
    requires job.threads <= 2 || Untangled(job.less, multiset(Emissions(job.mapper, job.inputs)))
    ensures multiset(s.output) == multiset(Sequential(job))
  {
    UntangledNoShareSkips(job);
    SkiplessRunIsSequential(job, s);
  }

  // ------------------------------------------------------------ needed: a split of tangled pairs over three vectors

  /** `u` holds `q` and nothing up to the key of `q` that lies behind `p`; `p` is alone; `w` holds the key of `q` too,
      and starts behind `p`. */
  ghost predicate Trap(less: Less, u: Vec, p: Pair, w: Vec, q: Pair, r: Pair) {
    && KeySorted(less, u) && q in u && less(q.key, p.key)
    && (forall x :: x in u && !less(q.key, x.key) ==> x.key < p.key)
    && r in w && KeyEqual(less, q.key, r.key) && p.key < w[0].key
  }

  lemma TrapOrder(less: Less, sorter: Sorter, vs: seq<Vec>, u: Vec, p: Pair, w: Vec)
    requires SortsByAddress(sorter) && AllNonEmpty(vs) && vs == [u, [p], w]
    requires vs[0][0].key < p.key < vs[2][0].key
    ensures Sorted(sorter, vs) == vs
  {
    var ord := Sorted(sorter, vs);
    PermutationMembers(ord, vs);
    assert ord == [ord[0], ord[1], ord[2]];
    assert !VectorComp(ord[1], ord[0]) && !VectorComp(ord[2], ord[1]) && !VectorComp(ord[2], ord[0]);
    assert multiset(ord) == multiset{ord[0], ord[1], ord[2]} && multiset(vs) == multiset{u, [p], w};
    assert multiset(ord)[u] == 1 && multiset(ord)[[p]] == 1 && multiset(ord)[w] == 1;
  }

  lemma SortedHead(less: Less, u: Vec, q: Pair)
    requires StrictWeakOrder(less) && KeySorted(less, u) && q in u
    ensures !less(q.key, u[0].key)
  {
    var i :| 0 <= i < |u| && u[i] == q;
  }

  lemma {:induction false} TrapSkips(less: Less, sorter: Sorter, u: Vec, p: Pair, w: Vec, q: Pair, r: Pair)
    requires StrictWeakOrder(less) && SortsByAddress(sorter) && Trap(less, u, p, w, q, r)
    ensures AllNonEmpty([u, [p], w]) && !NeverSkips(less, sorter, [u, [p], w])
    decreases |u|
  {
    var vs: seq<Vec> := [u, [p], w];
    var k := u[0].key;
    SortedHead(less, u, q);
    assert u[0] in u;
    TrapOrder(less, sorter, vs, u, p, w);
    LessTrans(less, k, q.key, p.key);
    assert vs[1][0] == p && BreakAt(less, vs, k) == 1;
    if KeyEqual(less, q.key, k) {
      var j :| 0 <= j < |w| && w[j] == r;
      KeyEqualTrans(less, r.key, q.key, k);
      assert KeyEqual(less, vs[2][j].key, k);
    } else {
      var left := Others(less, u, k);
      TrapKept(less, u, p, w, q, r, left);
      assert vs[..1] == [u] && vs[1..] == [[p], w];
      assert Remaining(less, [u], k) == [left] by { OneRemains(less, u, k); }
      assert Rest(less, vs) == [left, [p], w];
      TrapSkips(less, sorter, left, p, w, q, r);
      RoundShrinks(less, sorter, vs);
    }
  }

  lemma OneRemains(less: Less, u: Vec, k: Ptr)
    requires Others(less, u, k) != []
    ensures Remaining(less, [u], k) == [Others(less, u, k)]
  {
    assert Remaining(less, [u][..0], k) == [];
    assert [u][0] == u;
  }

  lemma TrapKept(less: Less, u: Vec, p: Pair, w: Vec, q: Pair, r: Pair, left: Vec)
    requires StrictWeakOrder(less) && Trap(less, u, p, w, q, r) && left == Others(less, u, u[0].key)
    requires !KeyEqual(less, q.key, u[0].key)
    ensures Trap(less, left, p, w, q, r) && |left| < |u|
  {
    OthersSorted(less, u, u[0].key);
    OthersMember(less, u, u[0].key, q);
    OthersShorter(less, u);
    forall x | x in left ensures x in u {
      OthersMember(less, u, u[0].key, x);
    }
  }

  // ------------------------------------------------------------ a share that springs the trap

  lemma {:induction false} ClaimedMember(job: Job, claims: seq<nat>, t: nat, x: Pair)
    requires |claims| <= |job.inputs|
    ensures x in Claimed(job, claims, t) <==>
            exists k :: 0 <= k < |claims| && claims[k] == t && x in job.mapper(job.inputs[k])
  {
    if claims != [] {
      var before, last := claims[..|claims|-1], |claims| - 1;
      ClaimedMember(job, before, t, x);
      if k :| 0 <= k < |before| && before[k] == t && x in job.mapper(job.inputs[k]) {
        assert claims[k] == t;
      }
    }
  }

  lemma {:induction false} ClaimedAlone(job: Job, claims: seq<nat>, t: nat, i: nat)
    requires |claims| <= |job.inputs|
    requires forall k :: 0 <= k < |claims| && k != i ==> claims[k] != t
    requires i < |claims| ==> claims[i] == t
    ensures Claimed(job, claims, t) == if i < |claims| then multiset(job.mapper(job.inputs[i])) else multiset{}
  {
    if claims != [] {
      ClaimedAlone(job, claims[..|claims|-1], t, i);
    }
  }

  ghost predicate OneEach(job: Job) {
    forall k :: 0 <= k < |job.inputs| ==> |job.mapper(job.inputs[k])| <= 1
  }

  lemma {:induction false} EmittedFrom(mapper: Pair -> Vec, inputs: seq<Pair>, x: Pair) returns (k: nat)
    requires x in Emissions(mapper, inputs)
    ensures k < |inputs| && x in mapper(inputs[k])
  {
    k := |inputs| - 1;
    if x !in mapper(inputs[k]) {
      k := EmittedFrom(mapper, inputs[..k], x);
    }
  }

  /** Two pairs that are both emitted come from two inputs, if each input gives at most one. */
  lemma {:induction false} EmittedTwice(mapper: Pair -> Vec, inputs: seq<Pair>, q: Pair, r: Pair)
      returns (i: nat, j: nat)
    requires forall k :: 0 <= k < |inputs| ==> |mapper(inputs[k])| <= 1
    requires var ps := multiset(Emissions(mapper, inputs)); q in ps && r in ps - multiset{q}
    ensures i < |inputs| && j < |inputs| && i != j && q in mapper(inputs[i]) && r in mapper(inputs[j])
  {
    var last := |inputs| - 1;
    var init, m := Emissions(mapper, inputs[..last]), mapper(inputs[last]);
    assert multiset(Emissions(mapper, inputs)) == multiset(init) + multiset(m);
    if m == [q] {
      i := last;
      assert r in multiset(init);
      j := EmittedFrom(mapper, inputs[..last], r);
    } else if m == [r] {
      j := last;
      assert q in multiset(init);
      i := EmittedFrom(mapper, inputs[..last], q);
    } else {
      assert m == [] || (q !in multiset(m) && r !in multiset(m));
      i, j := EmittedTwice(mapper, inputs[..last], q, r);
    }
  }

  /** Who claims input `k` in the run that splits the key of `q`: thread 1 only the input of `p`, thread 2 that of `r`
      and all that lies behind `p` and is not above `q`, thread 0 the rest. */
  function Claimant(job: Job, q: Pair, p: Pair, ip: nat, ir: nat, k: nat): nat
    requires k < |job.inputs|
  {
    var emitted := job.mapper(job.inputs[k]);
    if k == ip then 1
    else if k == ir || (emitted != [] && !job.less(q.key, emitted[0].key) && p.key < emitted[0].key) then 2
    else 0
  }

  ghost predicate Springs(job: Job, claims: seq<nat>, q: Pair, p: Pair, ip: nat, ir: nat) {
    && |claims| == |job.inputs| && ip < |claims| && ir < |claims| && ip != ir
    && forall k :: 0 <= k < |claims| ==> claims[k] == Claimant(job, q, p, ip, ir, k)
  }

  lemma VectorMember(job: Job, claims: seq<nat>, vs: seq<Vec>, t: nat, x: Pair)
    requires ValidJob(job) && Mapped(job, claims, vs) && t < |vs|
    ensures x in vs[t] <==> exists k :: 0 <= k < |claims| && claims[k] == t && x in job.mapper(job.inputs[k])
  {
    MappedMeans(job, claims, vs);
    ClaimedMember(job, claims, t, x);
    assert x in vs[t] <==> x in multiset(vs[t]);
  }

  /** What thread 0 gets. */
  lemma ShareOfFirst(job: Job, claims: seq<nat>, vs: seq<Vec>, q: Pair, p: Pair, ip: nat, ir: nat, iq: nat)
    requires ValidJob(job) && Mapped(job, claims, vs) && |vs| >= 3 && OneEach(job) && Springs(job, claims, q, p, ip, ir)
    requires iq < |claims| && q in job.mapper(job.inputs[iq]) && iq != ip && iq != ir && q.key < p.key
    requires p in job.mapper(job.inputs[ip]) && job.less(q.key, p.key)
    ensures q in vs[0]
    ensures forall x :: x in vs[0] && !job.less(q.key, x.key) ==> x.key < p.key
  {
    assert claims[iq] == 0;
    VectorMember(job, claims, vs, 0, q);
    forall x | x in vs[0] && !job.less(q.key, x.key) ensures x.key < p.key {
      VectorMember(job, claims, vs, 0, x);
      var k :| 0 <= k < |claims| && claims[k] == 0 && x in job.mapper(job.inputs[k]);
      assert job.mapper(job.inputs[k])[0] == x && x.key != p.key;
    }
  }

  /** What thread 2 gets, if `r` is `h` or `h` is below it: its vector starts behind `p`. */
  lemma ShareOfThird(job: Job, claims: seq<nat>, vs: seq<Vec>, q: Pair, p: Pair, ip: nat, ir: nat, r: Pair, h: Pair,
                     ih: nat)
    requires ValidJob(job) && Mapped(job, claims, vs) && |vs| >= 3 && OneEach(job) && Springs(job, claims, q, p, ip, ir)
    requires r in job.mapper(job.inputs[ir]) && ih < |claims| && h in job.mapper(job.inputs[ih]) && ih != ip
    requires !job.less(q.key, h.key) && p.key < h.key && (r == h || job.less(h.key, r.key))
    ensures r in vs[2] && p.key < vs[2][0].key
  {
    assert claims[ir] == 2 && claims[ih] == 2;
    VectorMember(job, claims, vs, 2, r);
    VectorMember(job, claims, vs, 2, h);
    var x := vs[2][0];
    VectorMember(job, claims, vs, 2, x);
    var k :| 0 <= k < |claims| && claims[k] == 2 && x in job.mapper(job.inputs[k]);
    assert job.mapper(job.inputs[k])[0] == x;
    MappedMeans(job, claims, vs);
    SortedHead(job.less, vs[2], h);
    if k == ir {
      assert job.mapper(job.inputs[k])[0] == r;
    }
  }

  /** What the other threads get. */
  lemma ShareOfOthers(job: Job, claims: seq<nat>, vs: seq<Vec>, q: Pair, p: Pair, ip: nat, ir: nat)
    requires ValidJob(job) && Mapped(job, claims, vs) && |vs| >= 3 && OneEach(job) && Springs(job, claims, q, p, ip, ir)
    requires p in job.mapper(job.inputs[ip])
    ensures vs[1] == [p] && forall t :: 3 <= t < |vs| ==> vs[t] == []
  {
    MappedMeans(job, claims, vs);
    ClaimedAlone(job, claims, 1, ip);
    assert job.mapper(job.inputs[ip]) == [p];
    assert |multiset(vs[1])| == 1 && p in multiset(vs[1]);
    forall t | 3 <= t < |vs| ensures vs[t] == [] {
      ClaimedAlone(job, claims, t, |claims|);
      assert |multiset(vs[t])| == 0;
    }
  }

  lemma {:induction false} FirstThree(vs: seq<Vec>)
    requires |vs| >= 3 && vs[0] != [] && vs[1] != [] && vs[2] != [] && forall t :: 3 <= t < |vs| ==> vs[t] == []
    ensures NonEmpty(vs) == [vs[0], vs[1], vs[2]]
  {
    if |vs| > 3 {
      FirstThree(vs[..|vs|-1]);
    } else {
      assert vs[..2][..1] == vs[..1] && vs[..1][..0] == [];
      assert NonEmpty(vs[..1]) == [vs[0]];
      assert NonEmpty(vs[..2]) == [vs[0], vs[1]];
    }
  }

  lemma SprungTrap(job: Job, claims: seq<nat>, vs: seq<Vec>, q: Pair, r: Pair, p: Pair, h: Pair,
                   iq: nat, ir: nat, ip: nat, ih: nat)
    requires ValidJob(job) && SortsByAddress(job.sortVectors) && OneEach(job)
    requires Mapped(job, claims, vs) && |vs| >= 3 && Springs(job, claims, q, p, ip, ir)
    requires iq < |claims| && q in job.mapper(job.inputs[iq]) && iq != ip && iq != ir
    requires r in job.mapper(job.inputs[ir]) && p in job.mapper(job.inputs[ip])
    requires ih < |claims| && h in job.mapper(job.inputs[ih]) && ih != ip
    requires Tangled(job.less, multiset(Emissions(job.mapper, job.inputs)), q, r, p, h)
    requires r == h || job.less(h.key, r.key)
    ensures !NeverSkips(job.less, job.sortVectors, NonEmpty(vs))
  {
    ShareOfFirst(job, claims, vs, q, p, ip, ir, iq);
    ShareOfThird(job, claims, vs, q, p, ip, ir, r, h, ih);
    ShareOfOthers(job, claims, vs, q, p, ip, ir);
    MappedMeans(job, claims, vs);
    FirstThree(vs);
    TrapSkips(job.less, job.sortVectors, vs[0], p, vs[2], q, r);
  }

  /** The inputs the tangled pairs come from are as the trap needs them. */
  lemma TangledInputs(job: Job, q: Pair, r: Pair, p: Pair, h: Pair) returns (iq: nat, ir: nat, ip: nat, ih: nat)
    requires StrictWeakOrder(job.less) && OneEach(job)
    requires Tangled(job.less, multiset(Emissions(job.mapper, job.inputs)), q, r, p, h)
    requires r == h || job.less(h.key, r.key)
    ensures iq < |job.inputs| && ir < |job.inputs| && ip < |job.inputs| && ih < |job.inputs|
    ensures iq != ir && iq != ip && ir != ip && ih != ip
    ensures q in job.mapper(job.inputs[iq]) && r in job.mapper(job.inputs[ir])
    ensures p in job.mapper(job.inputs[ip]) && h in job.mapper(job.inputs[ih])
  {
    iq, ir := EmittedTwice(job.mapper, job.inputs, q, r);
    ip := EmittedFrom(job.mapper, job.inputs, p);
    ih := EmittedFrom(job.mapper, job.inputs, h);
    assert p != q && p != r && p != h;
    assert job.mapper(job.inputs[ip]) == [p];
  }

  /** Tangled pairs that come from one input each can be shared out so that a key is split. */
  lemma TangledSkips(job: Job, q: Pair, r: Pair, p: Pair, h: Pair)
    requires ValidJob(job) && SortsByAddress(job.sortVectors) && OneEach(job) && job.threads >= 3
    requires Tangled(job.less, multiset(Emissions(job.mapper, job.inputs)), q, r, p, h)
    requires r == h || job.less(h.key, r.key)
    ensures !NoShareSkips(job)
  {
    var iq, ir, ip, ih := TangledInputs(job, q, r, p, h);
    var claims := seq(|job.inputs|, k requires 0 <= k < |job.inputs| => Claimant(job, q, p, ip, ir, k));
    assert Shared(job, claims);
    SprungTrap(job, claims, Shares(job, claims), q, r, p, h, iq, ir, ip, ih);
  }

  // ------------------------------------------------------------ exactly when the code as written is right

  lemma UntangledIff(job: Job)
    requires ValidJob(job) && SortsByAddress(job.sortVectors) && OneEach(job)
    ensures NoShareSkips(job) <==> job.threads <= 2 || Untangled(job.less, multiset(Emissions(job.mapper, job.inputs)))
  {
    var ps := multiset(Emissions(job.mapper, job.inputs));
    if job.threads <= 2 || Untangled(job.less, ps) {
      UntangledNoShareSkips(job);
    } else {
      var q, r, p, h :| Tangled(job.less, ps, q, r, p, h);
      TangledSkips(job, q, if job.less(h.key, r.key) then r else h, p, h);
    }
  }

  /** With the outer sort as written, and a map that emits at most one pair for each input: every run of the program
      meets the law if and only if there are at most two threads or the emitted pairs are untangled. */
  lemma AddressOrderIff(job: Job)
    requires ValidJob(job) && SortsByAddress(job.sortVectors) && OneEach(job)
    ensures MeetsLaw(job) <==> job.threads <= 2 || Untangled(job.less, multiset(Emissions(job.mapper, job.inputs)))
  {
    LawIff(job);
    UntangledIff(job);
  }

  // ------------------------------------------------------------ the smallest example

  /** An order of keys in which the keys at addresses 1 and 3 are equivalent and the one at 2 is above them. */
  predicate SampleLess(a: Ptr, b: Ptr) {
    a != 2 && b == 2
  }

  lemma SampleIsStrictWeakOrder()
    ensures StrictWeakOrder(SampleLess)
  {
    var less: Less := SampleLess;
    assert forall a, b :: less(a, b) == SampleLess(a, b);
    forall a: Ptr, b: Ptr, c: Ptr
      ensures less(a, b) && less(b, c) ==> less(a, c)
      ensures KeyEqual(less, a, b) && KeyEqual(less, b, c) ==> KeyEqual(less, a, c)
    {
    }
  }

  const SAMPLE: seq<Pair> := [Pair(1, 0), Pair(2, 0), Pair(3, 0)]

  lemma SampleEmissions(mapper: Pair -> Vec)
    requires forall p :: mapper(p) == [p]
    ensures Emissions(mapper, SAMPLE) == SAMPLE
  {
    assert SAMPLE[..2][..1] == SAMPLE[..1] && SAMPLE[..1][..0] == [];
    assert Emissions(mapper, SAMPLE[..1]) == [SAMPLE[0]];
    assert Emissions(mapper, SAMPLE[..2]) == [SAMPLE[0], SAMPLE[1]];
  }

  lemma SampleIsTangled()
    ensures !Untangled(SampleLess, multiset(SAMPLE))
  {
    assert Tangled(SampleLess, multiset(SAMPLE), SAMPLE[0], SAMPLE[2], SAMPLE[1], SAMPLE[2]);
  }

  lemma SampleEmitsTangled(job: Job)
    requires job.less == SampleLess && (forall p :: job.mapper(p) == [p]) && job.inputs == SAMPLE
    ensures OneEach(job) && !Untangled(job.less, multiset(Emissions(job.mapper, job.inputs)))
  {
    SampleEmissions(job.mapper);
    SampleIsTangled();
  }

  /** Three threads and three inputs, each emitted as it is. */
  lemma SampleBreaksLaw(job: Job)
    requires ValidJob(job) && SortsByAddress(job.sortVectors)
    requires job.less == SampleLess && (forall p :: job.mapper(p) == [p]) && job.inputs == SAMPLE && job.threads == 3
    ensures !MeetsLaw(job)
  {
    SampleEmitsTangled(job);
    AddressOrderIff(job);
  }
}
