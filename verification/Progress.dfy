/** Whole runs of the engine: safety in every state, no deadlock, and termination under every schedule. */
module Progress {
  import opened Keys
  import opened Sums
  import opened Shuffle
  import opened Protocol
  import opened ProtocolInvariant

  // ------------------------------------------------------------ runs

  /** The state after the threads named in `schedule` have taken their steps in turn; a thread whose turn comes
      while it cannot step passes. */
  ghost function Exec(job: Job, s: State, schedule: seq<nat>): (s': State)
    requires ValidJob(job) && Inv(job, s)
    ensures Inv(job, s')
    decreases |schedule|
  {
    if schedule == [] then s
    else if Enabled(s, schedule[0]) then
      StepKeepsInv(job, s, schedule[0]);
      Exec(job, Step(job, s, schedule[0]), schedule[1..])
    else Exec(job, s, schedule[1..])
  }

  ghost function Run(job: Job, schedule: seq<nat>): (s: State)
    requires ValidJob(job)
    ensures Inv(job, s)
  {
    InitialInv(job);
    Exec(job, Initial(job), schedule)
  }

  /** In every run: no thread is ever inside `reduce(nullptr)`; tokens are conserved, and posts announce pushes. */
  lemma RunsAreSafe(job: Job, schedule: seq<nat>)
    requires ValidJob(job)
    ensures var s := Run(job, schedule);
            && (forall t :: 0 <= t < |s.pcs| ==> !s.pcs[t].ReducingNull?)
            && s.semaphore + NSum(s.pcs, Tokens) + |s.popped| == s.workPosts + s.poisonPosts
            && s.workPosts <= |s.pushed| <= s.workPosts + 1
            && s.poisonPosts <= job.threads
            && multiset(s.pushed) == multiset(s.popped) + multiset(s.queue)
  {
    PostsBounded(job, Run(job, schedule));
  }

  /** A thread that has found the queue empty. */
  ghost predicate SomeoneLeaves(s: State) {
    exists t :: 0 <= t < |s.pcs| && (s.pcs[t].Checking? || s.pcs[t].Returned?)
  }

  /** Once a thread has found the queue empty, the queue stays empty and nothing is pushed in any continuation. */
  lemma {:induction false} QueueStaysEmpty(job: Job, s: State, schedule: seq<nat>)
    requires ValidJob(job) && Inv(job, s) && SomeoneLeaves(s)
    ensures Exec(job, s, schedule).queue == [] && Exec(job, s, schedule).pushed == s.pushed
    decreases |schedule|
  {
    if schedule != [] {
      if Enabled(s, schedule[0]) {
        var t := schedule[0];
        StepKeepsInv(job, s, t);
        LeaversStay(job, s, t);
        QueueStep(job, s, t);
        QueueStaysEmpty(job, Step(job, s, t), schedule[1..]);
      } else {
        QueueStaysEmpty(job, s, schedule[1..]);
      }
    }
  }

  lemma LeaversStay(job: Job, s: State, t: nat)
    requires ValidJob(job) && Inv(job, s) && SomeoneLeaves(s) && Enabled(s, t) && Defined(s, t)
    ensures SomeoneLeaves(Step(job, s, t)) && !s.pcs[t].Pushing? && s.queue == []
  {
    var u :| 0 <= u < |s.pcs| && (s.pcs[u].Checking? || s.pcs[u].Returned?);
    var s' := Step(job, s, t);
    assert !OpensBarrier(job, s, t) by {
      if OpensBarrier(job, s, t) { LastToArrive(job, s, t); }
    }
    StepMovesOne(job, s, t);
    assert s'.pcs[u].Checking? || s'.pcs[u].Returned?;
  }

  /** Once the barrier is open only thread 0 touches the intermediate vectors, so the shuffle has them to itself. */
  lemma ShuffleOwnsVectors(job: Job, s: State, t: nat)
    requires ValidJob(job) && Inv(job, s) && Enabled(s, t) && t != 0
    requires !Before(s.pcs[0])
    ensures Defined(s, t) && Step(job, s, t).vectors == s.vectors
    ensures forall u :: 0 <= u < |s.pcs| ==> !Before(s.pcs[u])
  {
    BystanderStep(job, s, t);
  }

  // ------------------------------------------------------------ no deadlock

  /** The threads at the barrier cannot all be waiting. */
  lemma SomeoneArrives(job: Job, s: State)
    requires BarrierInv(job, s)
    ensures exists t :: 0 <= t < |s.pcs| && !s.pcs[t].Waiting?
  {
    if forall t :: 0 <= t < |s.pcs| ==> s.pcs[t].Waiting? {
      NSumAll(s.pcs, WaitCount, 1);
    }
  }

  /** If nobody can take a token, each thread has one: then all threads hold an exit token. */
  lemma TokensForAll(s: State, posts: nat)
    requires TokenInv(s) && s.semaphore == 0 && s.poisonPosts == |s.pcs|
    requires s.workPosts == posts >= |s.popped|
    requires forall t :: 0 <= t < |s.pcs| ==> s.pcs[t].Returned? || s.pcs[t].Acquiring?
    ensures AllReturned(s)
  {
    NSumFull(s.pcs, Tokens);
    forall t | 0 <= t < |s.pcs| ensures s.pcs[t].Returned? {
      assert Tokens(s.pcs[t]) == 1;
    }
  }

  /** If no thread can step, all have returned. */
  lemma DeadlockFree(job: Job, s: State)
    requires ValidJob(job) && Inv(job, s) && forall t :: 0 <= t < |s.pcs| ==> !Enabled(s, t)
    ensures AllReturned(s)
  {
    PostsBounded(job, s);
    SomeoneArrives(job, s);
    var u :| 0 <= u < |s.pcs| && !s.pcs[u].Waiting?;
    assert !Enabled(s, u) && !Enabled(s, 0);
    assert !Before(s.pcs[u]);
    Stuck(s);
    if s.semaphore == 0 {
      TokensForAll(s, s.workPosts);
    }
  }

  lemma Stuck(s: State)
    requires Opened(s) && ExitInv(s) && forall t :: 0 <= t < |s.pcs| ==> !Enabled(s, t)
    ensures forall t :: 0 <= t < |s.pcs| ==> s.pcs[t].Returned? || (s.pcs[t].Acquiring? && s.semaphore == 0)
  {
    forall t | 0 <= t < |s.pcs| ensures s.pcs[t].Returned? || (s.pcs[t].Acquiring? && s.semaphore == 0) {
      assert !Enabled(s, t) && !Before(s.pcs[t]);
    }
  }

  /** When all threads have returned: every token is used up, each thread has taken exactly one of the final
      posts, and every group of the plan has been pushed and popped. */
  lemma FinalState(job: Job, s: State)
    requires ValidJob(job) && Inv(job, s) && AllReturned(s)
    ensures s.semaphore == 0 && s.poisonPosts == job.threads == NSum(s.pcs, Tokens)
    ensures s.queue == [] && s.vectors == [] && s.done
    ensures |s.atOpen| == job.threads && AllSorted(job.less, s.atOpen)
    ensures Mapped(job, s.claims, s.atOpen) && s.pushed == Plan(job, NonEmpty(s.atOpen))
    ensures multiset(s.popped) == multiset(s.pushed)
    ensures multiset(s.output) == MSum(s.pushed, ReduceOf(job.reducer))
  {
    assert s.pcs[0].Returned?;
    MappedMeans(job, s.claims, s.atOpen);
    NSumAll(s.pcs, Tokens, 1);
    PostsBounded(job, s);
    NoPendingOut(s.pcs);
    MSumPermutation(s.popped, s.pushed, ReduceOf(job.reducer));
  }

  // ------------------------------------------------------------ every run is finite

  datatype Rank = Rank(inputs: nat, mapping: nat, pairs: nat, shuffle: nat, tokens: nat, groups: nat, local: nat)

  ghost predicate Lower(a: Rank, b: Rank) {
    a.inputs < b.inputs || (a.inputs == b.inputs && (
    a.mapping < b.mapping || (a.mapping == b.mapping && (
    a.pairs < b.pairs || (a.pairs == b.pairs && (
    a.shuffle < b.shuffle || (a.shuffle == b.shuffle && (
    a.tokens < b.tokens || (a.tokens == b.tokens && (
    a.groups < b.groups || (a.groups == b.groups &&
    a.local < b.local)))))))))))
  }

  ghost function MapRank(pc: PC): nat {
    match pc
    case Mapping(rest) => 7 + |rest|
    case Claiming => 6
    case Sorting => 5
    case Arriving => 4
    case Waiting => 3
    case Leaving => 2
    case _ => 0
  }

  ghost function ShuffleRank(pc: PC, n: nat): nat {
    match pc
    case Erasing => n + 8
    case Pushing(m, _) => m + 7
    case Posting(m) => m + 6
    case Looping(m) => m + 5
    case Closing(m) => m + 4
    case Poisoning(m, i) => if i <= m then m - i + 1 else 1
    case _ => 0
  }

  ghost function LocalRank(pc: PC): nat {
    match pc
    case Popping => 2
    case Checking => 1
    case Reducing(out) => 1 + |out|
    case _ => 0
  }

  ghost function RankOf(job: Job, s: State): Rank
    requires |s.claims| <= |job.inputs| && |s.pcs| > 0
  {
    Rank(|job.inputs| - |s.claims|, NSum(s.pcs, MapRank), |Union(s.vectors)|, ShuffleRank(s.pcs[0], job.threads),
         s.semaphore, |s.queue|, NSum(s.pcs, LocalRank))
  }

  /** A step up to and including the barrier claims an input or lowers the thread's map rank. */
  lemma MapStepRank(job: Job, s: State, t: nat)
    requires ValidJob(job) && Enabled(s, t) && Defined(s, t) && (Before(s.pcs[t]) || s.pcs[t].Leaving?)
    ensures var s' := Step(job, s, t);
            && |s'.pcs| == |s.pcs|
            && (|s'.claims| > |s.claims| ||
                (s'.claims == s.claims
                 && (forall u :: 0 <= u < |s.pcs| ==> MapRank(s'.pcs[u]) <= MapRank(s.pcs[u]))
                 && MapRank(s'.pcs[t]) < MapRank(s.pcs[t])))
  {
  }

  /** A step of the shuffle takes pairs out of the vectors or comes closer to its end. */
  ghost predicate ShuffleRankDrops(job: Job, s: State, s': State)
    requires |s.pcs| > 0 && |s'.pcs| > 0
  {
    && s'.claims == s.claims && MapRank(s'.pcs[0]) == MapRank(s.pcs[0]) == 0
    && (|Union(s'.vectors)| < |Union(s.vectors)| ||
        (|Union(s'.vectors)| == |Union(s.vectors)|
         && ShuffleRank(s'.pcs[0], job.threads) < ShuffleRank(s.pcs[0], job.threads)))
  }

  lemma EraseStepRank(job: Job, s: State)
    requires ValidJob(job) && Enabled(s, 0) && Defined(s, 0) && s.pcs[0].Erasing? && |s.vectors| == job.threads
    ensures |Step(job, s, 0).pcs| == |s.pcs| && ShuffleRankDrops(job, s, Step(job, s, 0))
  {
    NonEmptyKeeps(job.less, s.vectors);
  }

  lemma RoundStepRank(job: Job, s: State)
    requires ValidJob(job) && Enabled(s, 0) && Defined(s, 0) && s.pcs[0].Looping?
    ensures |Step(job, s, 0).pcs| == |s.pcs| && ShuffleRankDrops(job, s, Step(job, s, 0))
  {
    if s.vectors != [] {
      RoundShrinks(job.less, job.sortVectors, s.vectors);
    }
  }

  lemma PostStepRank(job: Job, s: State)
    requires ValidJob(job) && Enabled(s, 0) && Defined(s, 0)
    requires s.pcs[0].Pushing? || s.pcs[0].Posting? || s.pcs[0].Closing? || s.pcs[0].Poisoning?
    ensures |Step(job, s, 0).pcs| == |s.pcs| && ShuffleRankDrops(job, s, Step(job, s, 0))
  {
  }

  /** A step of the reduce phase takes a token, a group or an emission, or finishes. */
  lemma ReduceStepRank(job: Job, s: State, t: nat)
    requires ValidJob(job) && Enabled(s, t) && Defined(s, t)
    requires s.pcs[t].Acquiring? || s.pcs[t].Popping? || s.pcs[t].Checking? || s.pcs[t].Reducing?
    ensures var s' := Step(job, s, t);
            && s'.claims == s.claims && s'.vectors == s.vectors
            && MapRank(s'.pcs[t]) == MapRank(s.pcs[t]) == 0
            && ShuffleRank(s'.pcs[t], job.threads) == ShuffleRank(s.pcs[t], job.threads) == 0
            && (s'.semaphore < s.semaphore || (s'.semaphore == s.semaphore
            && (|s'.queue| < |s.queue| || (s'.queue == s.queue
            && LocalRank(s'.pcs[t]) < LocalRank(s.pcs[t])))))
  {
  }

  ghost predicate Sized(job: Job, s: State) {
    |s.claims| <= |job.inputs| && |s.pcs| > 0
  }

  lemma MapStepLowers(job: Job, s: State, t: nat)
    requires ValidJob(job) && Enabled(s, t) && Defined(s, t) && (Before(s.pcs[t]) || s.pcs[t].Leaving?)
    requires Sized(job, s) && Sized(job, Step(job, s, t))
    ensures Lower(RankOf(job, Step(job, s, t)), RankOf(job, s))
  {
    var s' := Step(job, s, t);
    MapStepRank(job, s, t);
    if s'.claims == s.claims {
      NSumLess(s'.pcs, s.pcs, t, MapRank);
    }
  }

  lemma ShuffleStepLowers(job: Job, s: State)
    requires ValidJob(job) && Enabled(s, 0) && Defined(s, 0) && Shuffling(s.pcs[0])
    requires s.pcs[0].Erasing? ==> |s.vectors| == job.threads
    requires Sized(job, s) && Sized(job, Step(job, s, 0))
    ensures Lower(RankOf(job, Step(job, s, 0)), RankOf(job, s))
  {
    var s' := Step(job, s, 0);
    StepMovesOne(job, s, 0);
    if s.pcs[0].Erasing? {
      EraseStepRank(job, s);
    } else if s.pcs[0].Looping? {
      RoundStepRank(job, s);
    } else {
      PostStepRank(job, s);
    }
    NSumUpdate(s.pcs, 0, s'.pcs[0], MapRank);
  }

  lemma ReduceStepLowers(job: Job, s: State, t: nat)
    requires ValidJob(job) && Enabled(s, t) && Defined(s, t)
    requires s.pcs[t].Acquiring? || s.pcs[t].Popping? || s.pcs[t].Checking? || s.pcs[t].Reducing?
    requires Sized(job, s) && Sized(job, Step(job, s, t))
    ensures Lower(RankOf(job, Step(job, s, t)), RankOf(job, s))
  {
    var s' := Step(job, s, t);
    StepMovesOne(job, s, t);
    ReduceStepRank(job, s, t);
    NSumUpdate(s.pcs, t, s'.pcs[t], MapRank);
    NSumUpdate(s.pcs, t, s'.pcs[t], LocalRank);
    assert t != 0 ==> s'.pcs[0] == s.pcs[0];
  }

  /** Every step lowers the rank. */
  lemma StepLowers(job: Job, s: State, t: nat)
    requires ValidJob(job) && Inv(job, s) && Enabled(s, t)
    ensures Defined(s, t) && Inv(job, Step(job, s, t))
    ensures Lower(RankOf(job, Step(job, s, t)), RankOf(job, s))
  {
    StepKeepsInv(job, s, t);
    if Before(s.pcs[t]) || s.pcs[t].Leaving? {
      MapStepLowers(job, s, t);
    } else if Shuffling(s.pcs[t]) {
      ShuffleStepLowers(job, s);
    } else {
      ReduceStepLowers(job, s, t);
    }
  }

  /** The state after `k` steps of the run in which the thread `choice(i)` takes the i-th turn. */
  ghost function StateAt(job: Job, choice: nat -> nat, k: nat): (s: State)
    requires ValidJob(job)
    ensures Inv(job, s)
  {
    if k == 0 then InitialInv(job); Initial(job)
    else
      var s := StateAt(job, choice, k - 1);
      if Enabled(s, choice(k - 1)) then StepKeepsInv(job, s, choice(k - 1)); Step(job, s, choice(k - 1)) else s
  }

  /** Whoever is given the turns, as long as every turn goes to a thread that can step: all threads return. */
  lemma {:induction false} EveryRunReturns(job: Job, choice: nat -> nat, k: nat) returns (end: nat)
    requires ValidJob(job)
    requires forall i: nat :: AllReturned(StateAt(job, choice, i)) || Enabled(StateAt(job, choice, i), choice(i))
    ensures AllReturned(StateAt(job, choice, end))
    decreases RankOf(job, StateAt(job, choice, k)).inputs, RankOf(job, StateAt(job, choice, k)).mapping,
              RankOf(job, StateAt(job, choice, k)).pairs, RankOf(job, StateAt(job, choice, k)).shuffle,
              RankOf(job, StateAt(job, choice, k)).tokens, RankOf(job, StateAt(job, choice, k)).groups,
              RankOf(job, StateAt(job, choice, k)).local
  {
    var s := StateAt(job, choice, k);
    if AllReturned(s) {
      end := k;
    } else {
      assert Enabled(s, choice(k));
      StepLowers(job, s, choice(k));
      assert StateAt(job, choice, k + 1) == Step(job, s, choice(k));
      end := EveryRunReturns(job, choice, k + 1);
    }
  }
}
