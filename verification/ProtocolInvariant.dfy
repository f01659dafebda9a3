/** What every reachable state of the engine satisfies. */
module ProtocolInvariant {
  import opened Keys
  import opened Sums
  import opened Shuffle
  import opened Protocol
  import Barrier

  // ------------------------------------------------------------ the barrier

  /** The thread has not been let through the barrier yet. */
  predicate Before(pc: PC) {
    pc.Claiming? || pc.Mapping? || pc.Sorting? || pc.Arriving? || pc.Waiting?
  }

  ghost predicate Closed(s: State) { forall t :: 0 <= t < |s.pcs| ==> Before(s.pcs[t]) }
  ghost predicate Opened(s: State) { forall t :: 0 <= t < |s.pcs| ==> !Before(s.pcs[t]) }

  ghost function WaitCount(pc: PC): nat { if pc.Waiting? then 1 else 0 }

  ghost predicate BarrierInv(job: Job, s: State) {
    && |s.pcs| == job.threads >= 1
    && s.count == NSum(s.pcs, WaitCount) < job.threads
    && (Closed(s) || Opened(s))
  }

  // ------------------------------------------------------------ the map phase

  function PendingEmits(pc: PC): Vec { if pc.Mapping? then pc.rest else [] }

  /** What the map emits for the inputs that thread `t` has claimed, in the order in which it claimed them. */
  function EmittedBy(job: Job, claims: seq<nat>, t: nat): Vec
    requires |claims| <= |job.inputs|
  {
    if claims == [] then []
    else
      var last := |claims| - 1;
      var before := EmittedBy(job, claims[..last], t);
      if claims[last] == t then before + job.mapper(job.inputs[last]) else before
  }

  ghost function Claimed(job: Job, claims: seq<nat>, t: nat): multiset<Pair>
    requires |claims| <= |job.inputs|
  {
    multiset(EmittedBy(job, claims, t))
  }

  ghost predicate ClaimsInv(job: Job, s: State) {
    && |s.claims| <= |job.inputs|
    && |s.claims| == (if s.next < |job.inputs| then s.next else |job.inputs|)
    && (forall k :: 0 <= k < |s.claims| ==> s.claims[k] < job.threads)
    && (forall t :: 0 <= t < |s.pcs| && !s.pcs[t].Claiming? && !s.pcs[t].Mapping? ==> s.next >= |job.inputs|)
  }

  /** A private vector holds what its thread has emitted so far, and from the barrier on it is sorted. */
  ghost predicate OwnVector(job: Job, claims: seq<nat>, t: nat, pc: PC, v: Vec)
    requires |claims| <= |job.inputs|
  {
    if pc.Arriving? || pc.Waiting? then v == job.sortPairs(EmittedBy(job, claims, t))
    else v + PendingEmits(pc) == EmittedBy(job, claims, t)
  }

  ghost predicate MapInv(job: Job, s: State)
    requires |s.claims| <= |job.inputs|
  {
    Closed(s) ==>
      && |s.vectors| == |s.pcs|
      && forall t :: 0 <= t < |s.pcs| ==> OwnVector(job, s.claims, t, s.pcs[t], s.vectors[t])
  }

  /** Every input is given to one of the threads. */
  predicate Shared(job: Job, claims: seq<nat>) {
    |claims| == |job.inputs| && forall k :: 0 <= k < |claims| ==> claims[k] < job.threads
  }

  /** The vectors the shuffle finds if the inputs are shared out like that. */
  function Shares(job: Job, claims: seq<nat>): (vs: seq<Vec>)
    requires Shared(job, claims)
  {
    seq(job.threads, t requires 0 <= t < job.threads => job.sortPairs(EmittedBy(job, claims, t)))
  }

  /** The result of the map phase: every input is claimed, and each vector is sorted and holds exactly the emissions
      of the inputs its thread claimed. */
  ghost predicate Mapped(job: Job, claims: seq<nat>, vs: seq<Vec>) {
    Shared(job, claims) && vs == Shares(job, claims)
  }

  lemma MappedMeans(job: Job, claims: seq<nat>, vs: seq<Vec>)
    requires ValidJob(job) && Mapped(job, claims, vs)
    ensures |vs| == job.threads && AllSorted(job.less, vs)
    ensures forall t :: 0 <= t < |vs| ==> multiset(vs[t]) == Claimed(job, claims, t)
  {
    forall t | 0 <= t < |vs| ensures KeySorted(job.less, vs[t]) && multiset(vs[t]) == Claimed(job, claims, t) {
      var v := EmittedBy(job, claims, t);
      assert vs[t] == job.sortPairs(v);
    }
  }

  // ------------------------------------------------------------ the shuffle

  predicate Shuffling(pc: PC) {
    pc.Erasing? || pc.Looping? || pc.Pushing? || pc.Posting? || pc.Closing? || pc.Poisoning?
  }

  /** Only thread 0 shuffles. */
  ghost predicate RoleInv(s: State) {
    forall t :: 0 < t < |s.pcs| ==> !Shuffling(s.pcs[t])
  }

  /** The groups the shuffle is going to push, from the vectors it found. */
  ghost function Plan(job: Job, vs: seq<Vec>): seq<Vec>
    requires ValidJob(job) && AllNonEmpty(vs)
  {
    Groups(job.less, job.sortVectors, vs)
  }

  ghost predicate NothingPushed(s: State) {
    s.pushed == [] && s.workPosts == 0 && s.poisonPosts == 0 && !s.done
  }

  /** How far thread 0 has come, and what it has pushed and posted on the way. */
  ghost predicate ShuffleInv(job: Job, s: State)
    requires ValidJob(job) && |s.pcs| >= 1
  {
    var pc := s.pcs[0];
    var n := job.threads;
    if Before(pc) then NothingPushed(s)
    else if pc.Leaving? || pc.Erasing? then NothingPushed(s) && Mapped(job, s.claims, s.vectors)
    else
      && Mapped(job, s.claims, s.atOpen)
      && WellFormed(job.less, s.vectors)
      && (var plan := Plan(job, NonEmpty(s.atOpen));
          match pc
          case Looping(m) =>
            m == n && plan == s.pushed + Plan(job, s.vectors)
            && s.workPosts == |s.pushed| && s.poisonPosts == 0 && !s.done
          case Pushing(m, g) =>
            m == n && plan == s.pushed + [g] + Plan(job, s.vectors)
            && s.workPosts == |s.pushed| && s.poisonPosts == 0 && !s.done
          case Posting(m) =>
            m == n && plan == s.pushed + Plan(job, s.vectors)
            && s.workPosts + 1 == |s.pushed| && s.poisonPosts == 0 && !s.done
          case Closing(m) =>
            m == n && s.vectors == [] && plan == s.pushed
            && s.workPosts == |s.pushed| && s.poisonPosts == 0 && !s.done
          case Poisoning(m, i) =>
            m == n && s.vectors == [] && plan == s.pushed
            && s.workPosts == |s.pushed| && s.poisonPosts == i <= n && s.done
          case _ =>
            s.vectors == [] && plan == s.pushed
            && s.workPosts == |s.pushed| && s.poisonPosts == n && s.done)
  }

  // ------------------------------------------------------------ tokens, queue and output

  /** 1 for a thread that has taken a token from the semaphore and has not popped a group with it. */
  ghost function Tokens(pc: PC): nat {
    if pc.Popping? || pc.Checking? || pc.ReducingNull? || pc.Returned? then 1 else 0
  }

  /** Every token ever posted is in the semaphore, with a thread, or spent on a popped group. */
  ghost predicate TokenInv(s: State) {
    s.semaphore + NSum(s.pcs, Tokens) + |s.popped| == s.workPosts + s.poisonPosts
  }

  /** Every group ever pushed is in the queue or has been popped, once. */
  ghost predicate QueueInv(s: State) {
    multiset(s.pushed) == multiset(s.popped) + multiset(s.queue)
  }

  /** A thread that found the queue empty is right to leave: the shuffle is over. */
  ghost predicate ExitInv(s: State) {
    forall t :: 0 <= t < |s.pcs| ==>
      && !s.pcs[t].ReducingNull?
      && (s.pcs[t].Checking? || s.pcs[t].Returned? ==> s.done && s.queue == [])
  }

  ghost function PendingOut(pc: PC): multiset<Pair> { if pc.Reducing? then multiset(pc.out) else multiset{} }

  /** The output of one call of reduce. */
  ghost function ReduceOf(reduce: Vec -> seq<Pair>): Vec -> multiset<Pair> {
    (g: Vec) => multiset(reduce(g))
  }

  /** Each popped group has been reduced once, up to the emissions still to come. */
  ghost predicate OutputInv(job: Job, s: State) {
    multiset(s.output) + MSum(s.pcs, PendingOut) == MSum(s.popped, ReduceOf(job.reducer))
  }

  ghost predicate Inv(job: Job, s: State)
    requires ValidJob(job)
  {
    && BarrierInv(job, s)
    && ClaimsInv(job, s)
    && MapInv(job, s)
    && RoleInv(s)
    && ShuffleInv(job, s)
    && TokenInv(s)
    && QueueInv(s)
    && ExitInv(s)
    && OutputInv(job, s)
  }

  lemma InitialInv(job: Job)
    requires ValidJob(job)
    ensures Inv(job, Initial(job))
  {
    var s := Initial(job);
    NSumAll(s.pcs, WaitCount, 0);
    NSumAll(s.pcs, Tokens, 0);
    NoPendingOut(s.pcs);
  }

  lemma {:induction false} NoPendingOut(pcs: seq<PC>)
    requires forall t :: 0 <= t < |pcs| ==> !pcs[t].Reducing?
    ensures MSum(pcs, PendingOut) == multiset{}
  {
    if pcs != [] {
      NoPendingOut(pcs[1..]);
    }
  }

  /** No step of a reachable state leaves the bounds of a vector. */
  lemma StepsAreDefined(job: Job, s: State, t: nat)
    requires ValidJob(job) && Inv(job, s) && t < |s.pcs|
    ensures Defined(s, t)
  {
  }

  // ------------------------------------------------------------ every step keeps it

  ghost predicate OpensBarrier(job: Job, s: State, t: nat)
    requires t < |s.pcs|
  {
    s.pcs[t].Arriving? && Barrier.Opens(s.count, job.threads)
  }

  /** A step that does not open the barrier moves one thread only, and not past the barrier. */
  lemma StepMovesOne(job: Job, s: State, t: nat)
    requires ValidJob(job) && Enabled(s, t) && Defined(s, t) && !OpensBarrier(job, s, t)
    ensures var s' := Step(job, s, t);
            && |s'.pcs| == |s.pcs|
            && s'.pcs == s.pcs[t := s'.pcs[t]]
            && Before(s'.pcs[t]) == Before(s.pcs[t])
            && s'.count + WaitCount(s.pcs[t]) == s.count + WaitCount(s'.pcs[t])
            && (s'.count == s.count || s'.count < job.threads)
  {
  }

  lemma BarrierKept(job: Job, s: State, t: nat)
    requires ValidJob(job) && Enabled(s, t) && Defined(s, t) && BarrierInv(job, s)
    ensures BarrierInv(job, Step(job, s, t))
    ensures OpensBarrier(job, s, t) ==> Opened(Step(job, s, t))
    ensures !OpensBarrier(job, s, t) ==> (Closed(s) <==> Closed(Step(job, s, t)))
  {
    var s' := Step(job, s, t);
    if OpensBarrier(job, s, t) {
      LastToArrive(job, s, t);
      NSumAll(s'.pcs, WaitCount, 0);
    } else {
      StepMovesOne(job, s, t);
      SideKept(s, t, s');
      NSumUpdate(s.pcs, t, s'.pcs[t], WaitCount);
    }
  }

  lemma SideKept(s: State, t: nat, s': State)
    requires t < |s.pcs| == |s'.pcs| && s'.pcs == s.pcs[t := s'.pcs[t]] && Before(s'.pcs[t]) == Before(s.pcs[t])
    ensures Closed(s) <==> Closed(s')
    ensures Opened(s) <==> Opened(s')
  {
    forall u | 0 <= u < |s.pcs| ensures Before(s.pcs[u]) == Before(s'.pcs[u]) {
    }
  }

  /** When the count reaches the number of threads, everyone else is waiting. */
  lemma LastToArrive(job: Job, s: State, t: nat)
    requires BarrierInv(job, s) && t < |s.pcs| && OpensBarrier(job, s, t)
    ensures forall u :: 0 <= u < |s.pcs| && u != t ==> s.pcs[u].Waiting?
  {
    var others := s.pcs[t := Waiting];
    NSumUpdate(s.pcs, t, Waiting, WaitCount);
    NSumFull(others, WaitCount);
    forall u | 0 <= u < |s.pcs| && u != t ensures s.pcs[u].Waiting? {
      assert WaitCount(others[u]) == 1;
    }
  }

  lemma ClaimsKept(job: Job, s: State, t: nat)
    requires ValidJob(job) && Enabled(s, t) && Defined(s, t) && BarrierInv(job, s) && ClaimsInv(job, s)
    ensures ClaimsInv(job, Step(job, s, t))
  {
    if OpensBarrier(job, s, t) {
      LastToArrive(job, s, t);
    } else {
      StepMovesOne(job, s, t);
    }
  }

  lemma EmittedAppend(job: Job, claims: seq<nat>, t: nat, u: nat)
    requires |claims| < |job.inputs|
    ensures var before := EmittedBy(job, claims, u);
            EmittedBy(job, claims + [t], u) == if t == u then before + job.mapper(job.inputs[|claims|]) else before
  {
    assert (claims + [t])[..|claims|] == claims;
  }

  lemma ClaimedAppend(job: Job, claims: seq<nat>, t: nat, u: nat)
    requires |claims| < |job.inputs|
    ensures Claimed(job, claims + [t], u) ==
            if t == u then Claimed(job, claims, u) + multiset(job.mapper(job.inputs[|claims|])) else Claimed(job, claims, u)
  {
    EmittedAppend(job, claims, t, u);
  }

  /** A step before the barrier concerns the thread's own vector only. */
  ghost predicate OwnVectorStep(job: Job, s: State, t: nat, s': State) {
    && t < |s.pcs| == |s'.pcs| && s'.pcs == s.pcs[t := s'.pcs[t]]
    && |s.claims| <= |job.inputs| && |s'.claims| <= |job.inputs|
    && |s'.vectors| == |s.vectors| == |s.pcs|
    && (forall u :: 0 <= u < |s.pcs| && u != t ==>
          s'.vectors[u] == s.vectors[u] && EmittedBy(job, s'.claims, u) == EmittedBy(job, s.claims, u))
    && OwnVector(job, s'.claims, t, s'.pcs[t], s'.vectors[t])
  }

  lemma OwnVectorKeepsMap(job: Job, s: State, t: nat, s': State)
    requires OwnVectorStep(job, s, t, s') && Closed(s) && MapInv(job, s)
    ensures MapInv(job, s')
  {
    forall u | 0 <= u < |s'.pcs| ensures OwnVector(job, s'.claims, u, s'.pcs[u], s'.vectors[u]) {
      assert OwnVector(job, s.claims, u, s.pcs[u], s.vectors[u]);
    }
  }

  lemma ClaimOwnVector(job: Job, s: State, t: nat)
    requires ValidJob(job) && Enabled(s, t) && Defined(s, t) && s.pcs[t].Claiming?
    requires Closed(s) && ClaimsInv(job, s) && MapInv(job, s) && ClaimsInv(job, Step(job, s, t))
    ensures OwnVectorStep(job, s, t, Step(job, s, t))
  {
    assert OwnVector(job, s.claims, t, s.pcs[t], s.vectors[t]);
    if s.next < |job.inputs| {
      forall u | 0 <= u < |s.pcs|
        ensures u != t ==> EmittedBy(job, s.claims + [t], u) == EmittedBy(job, s.claims, u)
      {
        EmittedAppend(job, s.claims, t, u);
      }
      EmittedAppend(job, s.claims, t, t);
    }
  }

  lemma EmitOwnVector(job: Job, s: State, t: nat)
    requires ValidJob(job) && Enabled(s, t) && Defined(s, t)
    requires s.pcs[t].Mapping? && Closed(s) && ClaimsInv(job, s) && MapInv(job, s)
    ensures OwnVectorStep(job, s, t, Step(job, s, t))
  {
    var s', rest := Step(job, s, t), s.pcs[t].rest;
    assert OwnVector(job, s.claims, t, s.pcs[t], s.vectors[t]);
    if rest != [] {
      assert s'.vectors == s.vectors[t := s.vectors[t] + [rest[0]]];
      assert s.vectors[t] + rest == s.vectors[t] + [rest[0]] + rest[1..];
    }
  }

  lemma SortOwnVector(job: Job, s: State, t: nat)
    requires ValidJob(job) && Enabled(s, t) && Defined(s, t)
    requires s.pcs[t].Sorting? || (s.pcs[t].Arriving? && !OpensBarrier(job, s, t))
    requires Closed(s) && ClaimsInv(job, s) && MapInv(job, s)
    ensures OwnVectorStep(job, s, t, Step(job, s, t))
  {
    assert OwnVector(job, s.claims, t, s.pcs[t], s.vectors[t]);
    assert s.vectors[t] + [] == s.vectors[t];
  }

  lemma MapKept(job: Job, s: State, t: nat)
    requires ValidJob(job) && Enabled(s, t) && Defined(s, t)
    requires BarrierInv(job, s) && ClaimsInv(job, s) && MapInv(job, s)
    ensures ClaimsInv(job, Step(job, s, t)) && MapInv(job, Step(job, s, t))
  {
    var s' := Step(job, s, t);
    BarrierKept(job, s, t);
    ClaimsKept(job, s, t);
    if OpensBarrier(job, s, t) {
      assert !Before(s'.pcs[t]);
    } else if Closed(s') {
      assert Before(s.pcs[t]);
      if s.pcs[t].Claiming? {
        ClaimOwnVector(job, s, t);
      } else if s.pcs[t].Mapping? {
        EmitOwnVector(job, s, t);
      } else {
        SortOwnVector(job, s, t);
      }
      OwnVectorKeepsMap(job, s, t, s');
    }
  }

  /** When the barrier opens the map phase is complete. */
  lemma OpeningIsMapped(job: Job, s: State, t: nat)
    requires ValidJob(job) && Enabled(s, t) && Defined(s, t) && OpensBarrier(job, s, t)
    requires BarrierInv(job, s) && ClaimsInv(job, s) && MapInv(job, s)
    ensures Mapped(job, s.claims, s.vectors) && Closed(s)
  {
    LastToArrive(job, s, t);
    assert Before(s.pcs[t]);
    assert Closed(s);
    assert Shared(job, s.claims);
    forall u | 0 <= u < |s.vectors| ensures s.vectors[u] == Shares(job, s.claims)[u] {
      assert OwnVector(job, s.claims, u, s.pcs[u], s.vectors[u]);
    }
  }

  lemma RoleKept(job: Job, s: State, t: nat)
    requires ValidJob(job) && Enabled(s, t) && Defined(s, t) && RoleInv(s)
    ensures RoleInv(Step(job, s, t))
  {
    if !OpensBarrier(job, s, t) {
      StepMovesOne(job, s, t);
    }
  }

  /** A thread other than 0, and thread 0 before and after its shuffle, leaves the shuffle's data alone. */
  lemma BystanderStep(job: Job, s: State, t: nat)
    requires ValidJob(job) && Enabled(s, t) && Defined(s, t) && !Shuffling(s.pcs[t])
    ensures var s' := Step(job, s, t);
            && s'.pushed == s.pushed && s'.workPosts == s.workPosts && s'.poisonPosts == s.poisonPosts
            && s'.done == s.done && s'.atOpen == s.atOpen
            && (!Before(s.pcs[t]) ==> s'.vectors == s.vectors && s'.claims == s.claims)
            && (s.pcs[t].Arriving? ==> s'.vectors == s.vectors && s'.claims == s.claims)
  {
  }

  lemma ShuffleKept(job: Job, s: State, t: nat)
    requires ValidJob(job) && Enabled(s, t) && Defined(s, t)
    requires BarrierInv(job, s) && ClaimsInv(job, s) && MapInv(job, s) && RoleInv(s) && ShuffleInv(job, s)
    ensures ShuffleInv(job, Step(job, s, t))
  {
    if OpensBarrier(job, s, t) {
      OpeningIsMapped(job, s, t);
      BystanderStep(job, s, t);
    } else if Shuffling(s.pcs[t]) {
      assert t == 0;
      ShufflerKept(job, s);
    } else {
      StepMovesOne(job, s, t);
      BystanderStep(job, s, t);
      if t > 0 && !Before(s.pcs[0]) {
        assert !Before(s.pcs[t]);
      }
      ShuffleUntouched(job, s, t);
    }
  }

  /** A step of a bystander does not touch what the shuffle relies on. */
  lemma ShuffleUntouched(job: Job, s: State, t: nat)
    requires ValidJob(job) && Enabled(s, t) && Defined(s, t) && |s.pcs| >= 1 && ShuffleInv(job, s)
    requires !Shuffling(s.pcs[t]) && !OpensBarrier(job, s, t)
    requires t > 0 && !Before(s.pcs[0]) ==> !Before(s.pcs[t])
    ensures ShuffleInv(job, Step(job, s, t))
  {
    StepMovesOne(job, s, t);
    BystanderStep(job, s, t);
  }

  /** Each step of the shuffle takes the next group of its plan one stage further. */
  lemma ShufflerKept(job: Job, s: State)
    requires ValidJob(job) && |s.pcs| == job.threads >= 1 && Enabled(s, 0) && Defined(s, 0)
    requires Shuffling(s.pcs[0]) && ShuffleInv(job, s)
    ensures ShuffleInv(job, Step(job, s, 0))
  {
    match s.pcs[0] {
      case Erasing => EraseKept(job, s);
      case Looping(m) =>
        if s.vectors != [] { RoundKept(job, s); } else { LoopEndKept(job, s); }
      case Pushing(m, g) => PushKept(job, s);
      case Posting(m) => PostKept(job, s);
      case Closing(m) => CloseKept(job, s);
      case Poisoning(m, i) => PoisonKept(job, s);
    }
  }

  lemma EraseKept(job: Job, s: State)
    requires ValidJob(job) && |s.pcs| == job.threads >= 1 && Defined(s, 0)
    requires s.pcs[0].Erasing? && ShuffleInv(job, s)
    ensures ShuffleInv(job, Step(job, s, 0))
  {
    MappedMeans(job, s.claims, s.vectors);
    NonEmptyKeeps(job.less, s.vectors);
    assert s.pushed + Plan(job, NonEmpty(s.vectors)) == Plan(job, NonEmpty(s.vectors));
  }

  lemma RoundKept(job: Job, s: State)
    requires ValidJob(job) && |s.pcs| == job.threads >= 1 && Defined(s, 0)
    requires s.pcs[0].Looping? && s.vectors != [] && ShuffleInv(job, s)
    ensures ShuffleInv(job, Step(job, s, 0))
  {
    var ord := Sorted(job.sortVectors, s.vectors);
    RestWellFormed(job.less, ord);
    var g, gs := Group(job.less, ord), Plan(job, Rest(job.less, ord));
    assert Plan(job, s.vectors) == [g] + gs;
    assert s.pushed + ([g] + gs) == s.pushed + [g] + gs;
  }

  lemma LoopEndKept(job: Job, s: State)
    requires ValidJob(job) && |s.pcs| == job.threads >= 1 && Defined(s, 0)
    requires s.pcs[0].Looping? && s.vectors == [] && ShuffleInv(job, s)
    ensures ShuffleInv(job, Step(job, s, 0))
  {
    assert Plan(job, s.vectors) == [];
    assert s.pushed + [] == s.pushed;
  }

  lemma PushKept(job: Job, s: State)
    requires ValidJob(job) && |s.pcs| == job.threads >= 1 && Defined(s, 0)
    requires s.pcs[0].Pushing? && ShuffleInv(job, s)
    ensures ShuffleInv(job, Step(job, s, 0))
  {
  }

  lemma PostKept(job: Job, s: State)
    requires ValidJob(job) && |s.pcs| == job.threads >= 1 && Defined(s, 0)
    requires s.pcs[0].Posting? && ShuffleInv(job, s)
    ensures ShuffleInv(job, Step(job, s, 0))
  {
  }

  lemma CloseKept(job: Job, s: State)
    requires ValidJob(job) && |s.pcs| == job.threads >= 1 && Defined(s, 0)
    requires s.pcs[0].Closing? && ShuffleInv(job, s)
    ensures ShuffleInv(job, Step(job, s, 0))
  {
  }

  lemma PoisonKept(job: Job, s: State)
    requires ValidJob(job) && |s.pcs| == job.threads >= 1 && Defined(s, 0)
    requires s.pcs[0].Poisoning? && ShuffleInv(job, s)
    ensures ShuffleInv(job, Step(job, s, 0))
  {
  }

  // ------------------------------------------------------------ tokens, queue, exit, output

  lemma {:induction false} SameTokens(pcs: seq<PC>, pcs': seq<PC>)
    requires |pcs| == |pcs'| && forall i :: 0 <= i < |pcs| ==> Tokens(pcs[i]) == Tokens(pcs'[i])
    ensures NSum(pcs, Tokens) == NSum(pcs', Tokens)
  {
    NSumMonotone(pcs, pcs', Tokens);
    NSumMonotone(pcs', pcs, Tokens);
  }

  lemma TokensKept(job: Job, s: State, t: nat)
    requires ValidJob(job) && Enabled(s, t) && Defined(s, t) && BarrierInv(job, s) && TokenInv(s)
    ensures TokenInv(Step(job, s, t))
  {
    var s' := Step(job, s, t);
    if OpensBarrier(job, s, t) {
      LastToArrive(job, s, t);
      SameTokens(s.pcs, s'.pcs);
    } else {
      StepMovesOne(job, s, t);
      NSumUpdate(s.pcs, t, s'.pcs[t], Tokens);
      if Shuffling(s.pcs[t]) {
        PostMovesToken(job, s, t);
      } else {
        ReduceMovesToken(job, s, t);
      }
    }
  }

  lemma PostMovesToken(job: Job, s: State, t: nat)
    requires ValidJob(job) && Enabled(s, t) && Defined(s, t) && Shuffling(s.pcs[t])
    ensures var s' := Step(job, s, t);
            && s'.semaphore + s.workPosts + s.poisonPosts == s.semaphore + s'.workPosts + s'.poisonPosts
            && Tokens(s'.pcs[t]) == Tokens(s.pcs[t]) == 0 && s'.popped == s.popped
  {
  }

  lemma ReduceMovesToken(job: Job, s: State, t: nat)
    requires ValidJob(job) && Enabled(s, t) && Defined(s, t) && !OpensBarrier(job, s, t) && !Shuffling(s.pcs[t])
    ensures var s' := Step(job, s, t);
            && s'.semaphore + Tokens(s'.pcs[t]) + |s'.popped| == s.semaphore + Tokens(s.pcs[t]) + |s.popped|
            && s'.workPosts == s.workPosts && s'.poisonPosts == s.poisonPosts
  {
  }

  lemma PopMoves(popped: seq<Vec>, queue: seq<Vec>)
    requires queue != []
    ensures multiset(popped) + multiset(queue)
         == multiset(popped + [queue[|queue|-1]]) + multiset(queue[..|queue|-1])
  {
    var init, last := queue[..|queue|-1], queue[|queue|-1];
    assert queue == init + [last];
    assert multiset(popped) + (multiset(init) + multiset{last})
        == (multiset(popped) + multiset{last}) + multiset(init);
  }

  lemma QueueStep(job: Job, s: State, t: nat)
    requires ValidJob(job) && Enabled(s, t) && Defined(s, t)
    ensures var s' := Step(job, s, t);
            if s.pcs[t].Pushing? then
              s'.queue == s.queue + [s.pcs[t].group] && s'.pushed == s.pushed + [s.pcs[t].group] && s'.popped == s.popped
            else if s.pcs[t].Popping? && s.queue != [] then
              && s'.queue == s.queue[..|s.queue|-1] && s'.pushed == s.pushed
              && s'.popped == s.popped + [s.queue[|s.queue|-1]]
            else s'.queue == s.queue && s'.pushed == s.pushed && s'.popped == s.popped
  {
  }

  lemma QueueKept(job: Job, s: State, t: nat)
    requires ValidJob(job) && Enabled(s, t) && Defined(s, t) && QueueInv(s)
    ensures QueueInv(Step(job, s, t))
  {
    QueueStep(job, s, t);
    if s.pcs[t].Pushing? {
      AddAssociative(multiset(s.popped), multiset(s.queue), multiset{s.pcs[t].group});
    } else if s.pcs[t].Popping? && s.queue != [] {
      PopMoves(s.popped, s.queue);
    }
  }

  /** Posts never run ahead of what they announce. */
  lemma PostsBounded(job: Job, s: State)
    requires ValidJob(job) && Inv(job, s)
    ensures s.workPosts <= |s.pushed| <= s.workPosts + 1
    ensures s.poisonPosts > 0 ==> s.done
    ensures |s.pushed| == |s.popped| + |s.queue|
  {
    assert |multiset(s.pushed)| == |multiset(s.popped)| + |multiset(s.queue)|;
  }

  /** Whenever the locked section finds the queue empty, the shuffle is already over. */
  lemma EmptyQueueMeansDone(job: Job, s: State, t: nat)
    requires ValidJob(job) && Inv(job, s) && t < |s.pcs|
    requires s.pcs[t].Popping? && s.queue == []
    ensures s.done
  {
    PostsBounded(job, s);
    NSumAtLeast(s.pcs, t, Tokens);
  }

  lemma ExitKept(job: Job, s: State, t: nat)
    requires ValidJob(job) && Inv(job, s) && Enabled(s, t) && Defined(s, t)
    ensures ExitInv(Step(job, s, t))
  {
    if OpensBarrier(job, s, t) {
      LastToArrive(job, s, t);
    } else {
      StepMovesOne(job, s, t);
      if s.pcs[t].Popping? && s.queue == [] {
        EmptyQueueMeansDone(job, s, t);
      }
      if s.pcs[t].Pushing? {
        assert t == 0;
      }
      ExitStep(job, s, t);
    }
  }

  /** Once the shuffle is over and the queue is empty, no step changes either. */
  lemma ExitStep(job: Job, s: State, t: nat)
    requires ValidJob(job) && ExitInv(s) && Enabled(s, t) && Defined(s, t) && !OpensBarrier(job, s, t)
    requires s.pcs[t].Pushing? ==> !s.done
    requires s.pcs[t].Popping? && s.queue == [] ==> s.done
    ensures ExitInv(Step(job, s, t))
  {
    var s' := Step(job, s, t);
    StepMovesOne(job, s, t);
    assert s.done && s.queue == [] ==> s'.done && s'.queue == [];
    assert s'.pcs[t].Checking? || s'.pcs[t].Returned? ==> s'.done && s'.queue == [];
  }

  lemma OutputKept(job: Job, s: State, t: nat)
    requires ValidJob(job) && Enabled(s, t) && Defined(s, t) && BarrierInv(job, s) && OutputInv(job, s)
    ensures OutputInv(job, Step(job, s, t))
  {
    var s' := Step(job, s, t);
    if OpensBarrier(job, s, t) {
      LastToArrive(job, s, t);
      MSumPointwise(s.pcs, PendingOut, s'.pcs, PendingOut);
    } else {
      StepMovesOne(job, s, t);
      OutputStepKept(job, s, t, MSum(s.pcs, PendingOut), MSum(s'.pcs, PendingOut));
    }
  }

  lemma OutputStepKept(job: Job, s: State, t: nat, pending: multiset<Pair>, pending': multiset<Pair>)
    requires ValidJob(job) && Enabled(s, t) && Defined(s, t) && !OpensBarrier(job, s, t)
    requires pending == MSum(s.pcs, PendingOut) && pending' == MSum(Step(job, s, t).pcs, PendingOut)
    requires multiset(s.output) + pending == MSum(s.popped, ReduceOf(job.reducer))
    ensures var s' := Step(job, s, t); multiset(s'.output) + pending' == MSum(s'.popped, ReduceOf(job.reducer))
  {
    var s' := Step(job, s, t);
    StepMovesOne(job, s, t);
    MSumUpdate(s.pcs, t, s'.pcs[t], PendingOut);
    OutputStep(job, s, t);
    if s.pcs[t].Reducing? && s.pcs[t].out != [] {
      OutputOne(s.output, pending, pending', s.pcs[t].out);
    } else if s.pcs[t].Popping? && s.queue != [] {
      MSumAppend(s.popped, s.queue[|s.queue|-1], ReduceOf(job.reducer));
      AddAssociative(multiset(s.output), pending, PendingOut(s'.pcs[t]));
    } else {
      Cancel(pending', pending, PendingOut(s.pcs[t]));
    }
  }

  /** What a step writes to the output, and what it leaves to write. */
  lemma OutputStep(job: Job, s: State, t: nat)
    requires ValidJob(job) && Enabled(s, t) && Defined(s, t) && !OpensBarrier(job, s, t)
    ensures var s' := Step(job, s, t);
            if s.pcs[t].Reducing? && s.pcs[t].out != [] then
              && s'.output == s.output + [s.pcs[t].out[0]] && s'.popped == s.popped
              && PendingOut(s'.pcs[t]) == multiset(s.pcs[t].out[1..])
            else if s.pcs[t].Popping? && s.queue != [] then
              && s'.output == s.output && s'.popped == s.popped + [s.queue[|s.queue|-1]]
              && PendingOut(s'.pcs[t]) == ReduceOf(job.reducer)(s.queue[|s.queue|-1])
            else s'.output == s.output && s'.popped == s.popped && PendingOut(s'.pcs[t]) == PendingOut(s.pcs[t])
  {
  }

  lemma OutputOne(output: seq<Pair>, pending: multiset<Pair>, pending': multiset<Pair>, out: seq<Pair>)
    requires out != [] && pending' + multiset(out) == pending + multiset(out[1..])
    ensures multiset(output) + pending == multiset(output + [out[0]]) + pending'
  {
    assert out == [out[0]] + out[1..];
    AddAssociative(pending', multiset{out[0]}, multiset(out[1..]));
    Cancel(pending, pending' + multiset{out[0]}, multiset(out[1..]));
  }

  /** Every step keeps the invariant. */
  lemma StepKeepsInv(job: Job, s: State, t: nat)
    requires ValidJob(job) && Inv(job, s) && Enabled(s, t)
    ensures Defined(s, t) && Inv(job, Step(job, s, t))
  {
    StepsAreDefined(job, s, t);
    BarrierKept(job, s, t);
    ClaimsKept(job, s, t);
    MapKept(job, s, t);
    RoleKept(job, s, t);
    ShuffleKept(job, s, t);
    TokensKept(job, s, t);
    QueueKept(job, s, t);
    ExitKept(job, s, t);
    OutputKept(job, s, t);
  }
}
