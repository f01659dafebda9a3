/** `runMapReduceFramework` over shared mutable data: each method is one atomic step of one thread, and a scheduler
    gives the steps to the threads in any order. */
module Framework {
  import opened Keys
  import opened Sums
  import opened Shuffle
  import opened ShuffleTheorems
  import opened ShuffleLoops
  import P = Protocol
  import opened ProtocolInvariant
  import opened Progress
  import opened EndToEnd
  import L = Law
  import A = AddressOrder
  import Barrier

  class Framework {
    const job: P.Job
    const barrier: Barrier.Barrier
    var inputVectorIndex: nat
    var intermediateVectors: seq<Vec>
    var shuffleVectors: seq<Vec>
    var semaphore: nat
    var isShuffleDone: bool
    var outputVec: seq<Pair>
    var pcs: seq<P.PC>
    ghost var claims: seq<nat>
    ghost var atOpen: seq<Vec>
    ghost var pushed: seq<Vec>
    ghost var popped: seq<Vec>
    ghost var workPosts: nat
    ghost var poisonPosts: nat

    ghost function View(): P.State
      reads this, barrier
    {
      P.State(inputVectorIndex, intermediateVectors, barrier.count, shuffleVectors, semaphore, isShuffleDone,
              outputVec, pcs, claims, atOpen, pushed, popped, workPosts, poisonPosts)
    }

    ghost predicate Ready(t: nat)
      reads this, barrier
    {
      P.ValidJob(job) && barrier.numThreads == job.threads && P.Enabled(View(), t) && P.Defined(View(), t)
    }

    constructor (job: P.Job)
      ensures this.job == job && barrier.numThreads == job.threads && fresh(barrier)
      ensures View() == P.Initial(job)
    {
      this.job := job;
      barrier := new Barrier.Barrier(job.threads);
      inputVectorIndex, semaphore, isShuffleDone := 0, 0, false;
      intermediateVectors, shuffleVectors, outputVec := seq(job.threads, _ => []), [], [];
      pcs := seq(job.threads, _ => P.Claiming);
      claims, atOpen, pushed, popped, workPosts, poisonPosts := [], [], [], [], 0, 0;
    }

    /** `previousIndex = (*inputVectorIndex)++`, and the test of the index. */
    method ClaimInput(t: nat)
      requires Ready(t) && pcs[t].Claiming?
      modifies this
      ensures View() == P.Step(job, old(View()), t)
    {
      var previousIndex := inputVectorIndex;
      inputVectorIndex := inputVectorIndex + 1;
      if previousIndex < |job.inputs| {
        claims := claims + [t];
        pcs := pcs[t := P.Mapping(job.mapper(job.inputs[previousIndex]))];
      } else {
        pcs := pcs[t := P.Sorting];
      }
    }

    /** The next `emit2` of the running map, or its return. */
    method Emit2(t: nat)
      requires Ready(t) && pcs[t].Mapping?
      modifies this
      ensures View() == P.Step(job, old(View()), t)
    {
      var rest := pcs[t].rest;
      if rest == [] {
        pcs := pcs[t := P.Claiming];
      } else {
        intermediateVectors := intermediateVectors[t := intermediateVectors[t] + [rest[0]]];
        pcs := pcs[t := P.Mapping(rest[1..])];
      }
    }

    method SortOwnVector(t: nat)
      requires Ready(t) && pcs[t].Sorting?
      modifies this
      ensures View() == P.Step(job, old(View()), t)
    {
      intermediateVectors := intermediateVectors[t := job.sortPairs(intermediateVectors[t])];
      pcs := pcs[t := P.Arriving];
    }

    method EnterBarrier(t: nat)
      requires Ready(t) && pcs[t].Arriving?
      modifies this, barrier
      ensures View() == P.Step(job, old(View()), t)
    {
      var opens := barrier.Enter();
      pcs := if opens then P.Broadcast(pcs, t) else pcs[t := P.Waiting];
    }

    /** Thread 0 goes on to the shuffle, the others to the reduce phase. */
    method LeaveBarrier(t: nat)
      requires Ready(t) && pcs[t].Leaving?
      modifies this
      ensures View() == P.Step(job, old(View()), t)
    {
      pcs := pcs[t := if t == 0 then P.Erasing else P.Acquiring];
    }

    method EraseEmptyVectors(t: nat)
      requires Ready(t) && pcs[t].Erasing?
      modifies this
      ensures View() == P.Step(job, old(View()), t)
    {
      var threadNum := |intermediateVectors|;
      atOpen := intermediateVectors;
      intermediateVectors := NonEmpty(intermediateVectors);
      pcs := pcs[t := P.Looping(threadNum)];
    }

    /** One round of the shuffle, up to the push. */
    method ShuffleRound(t: nat)
      requires Ready(t) && pcs[t].Looping? && AllSorted(job.less, intermediateVectors)
      modifies this
      ensures View() == P.Step(job, old(View()), t)
    {
      if intermediateVectors == [] {
        pcs := pcs[t := P.Closing(pcs[t].posts)];
      } else {
        var group, left := Round(job.less, job.sortVectors, intermediateVectors);
        intermediateVectors := left;
        pcs := pcs[t := P.Pushing(pcs[t].posts, group)];
      }
    }

    method PushGroup(t: nat)
      requires Ready(t) && pcs[t].Pushing?
      modifies this
      ensures View() == P.Step(job, old(View()), t)
    {
      shuffleVectors := shuffleVectors + [pcs[t].group];
      pushed := pushed + [pcs[t].group];
      pcs := pcs[t := P.Posting(pcs[t].posts)];
    }

    method PostGroup(t: nat)
      requires Ready(t) && pcs[t].Posting?
      modifies this
      ensures View() == P.Step(job, old(View()), t)
    {
      semaphore := semaphore + 1;
      workPosts := workPosts + 1;
      pcs := pcs[t := P.Looping(pcs[t].posts)];
    }

    method CloseShuffle(t: nat)
      requires Ready(t) && pcs[t].Closing?
      modifies this
      ensures View() == P.Step(job, old(View()), t)
    {
      isShuffleDone := true;
      pcs := pcs[t := P.Poisoning(pcs[t].posts, 0)];
    }

    /** The next of the final posts, or the end of their loop. */
    method PostPoison(t: nat)
      requires Ready(t) && pcs[t].Poisoning?
      modifies this
      ensures View() == P.Step(job, old(View()), t)
    {
      var posts, i := pcs[t].posts, pcs[t].i;
      if i < posts {
        semaphore := semaphore + 1;
        poisonPosts := poisonPosts + 1;
        pcs := pcs[t := P.Poisoning(posts, i + 1)];
      } else {
        pcs := pcs[t := P.Acquiring];
      }
    }

    method TakeToken(t: nat)
      requires Ready(t) && pcs[t].Acquiring?
      modifies this
      ensures View() == P.Step(job, old(View()), t)
    {
      semaphore := semaphore - 1;
      pcs := pcs[t := P.Popping];
    }

    /** The locked section of the reduce phase. */
    method PopGroup(t: nat)
      requires Ready(t) && pcs[t].Popping?
      modifies this
      ensures View() == P.Step(job, old(View()), t)
    {
      if shuffleVectors == [] {
        pcs := pcs[t := P.Checking];
      } else {
        var last := shuffleVectors[|shuffleVectors|-1];
        shuffleVectors := shuffleVectors[..|shuffleVectors|-1];
        popped := popped + [last];
        pcs := pcs[t := P.Reducing(job.reducer(last))];
      }
    }

    method CheckDone(t: nat)
      requires Ready(t) && pcs[t].Checking?
      modifies this
      ensures View() == P.Step(job, old(View()), t)
    {
      pcs := pcs[t := if isShuffleDone then P.Returned else P.ReducingNull];
    }

    /** The next `emit3` of the running reduce, or its return. */
    method Emit3(t: nat)
      requires Ready(t) && pcs[t].Reducing?
      modifies this
      ensures View() == P.Step(job, old(View()), t)
    {
      var out := pcs[t].out;
      if out == [] {
        pcs := pcs[t := P.Acquiring];
      } else {
        outputVec := outputVec + [out[0]];
        pcs := pcs[t := P.Reducing(out[1..])];
      }
    }

    /** The next step of `singleThread` in thread `t`. */
    method TakeStep(t: nat)
      requires Ready(t) && (pcs[t].Looping? ==> AllSorted(job.less, intermediateVectors))
      modifies this, barrier
      ensures View() == P.Step(job, old(View()), t)
    {
      match pcs[t]
      case Claiming => ClaimInput(t);
      case Mapping(_) => Emit2(t);
      case Sorting => SortOwnVector(t);
      case Arriving => EnterBarrier(t);
      case Leaving => LeaveBarrier(t);
      case Erasing => EraseEmptyVectors(t);
      case Looping(_) => ShuffleRound(t);
      case Pushing(_, _) => PushGroup(t);
      case Posting(_) => PostGroup(t);
      case Closing(_) => CloseShuffle(t);
      case Poisoning(_, _) => PostPoison(t);
      case Acquiring => TakeToken(t);
      case Popping => PopGroup(t);
      case Checking => CheckDone(t);
      case Reducing(_) => Emit3(t);
    }

    predicate CanStep(t: nat)
      reads this
    {
      t < |pcs| && !pcs[t].Waiting? && !pcs[t].Returned? && !pcs[t].ReducingNull? && (pcs[t].Acquiring? ==> semaphore > 0)
    }

    ghost predicate Consistent()
      reads this, barrier
    {
      P.ValidJob(job) && barrier.numThreads == job.threads && Inv(job, View())
    }

    ghost function RankNow(): Rank
      reads this, barrier
      requires Consistent()
    {
      RankOf(job, View())
    }

    method StepOnce(t: nat)
      requires Consistent() && CanStep(t)
      modifies this, barrier
      ensures Consistent() && View() == P.Step(job, old(View()), t)
      ensures Lower(RankNow(), old(RankNow()))
    {
      StepLowers(job, View(), t);
      RoundsFindSortedVectors(job, View(), t);
      TakeStep(t);
    }

    /** Threads take steps in an arbitrary order until none can: then all have returned. */
    method RunToEnd()
      requires Consistent()
      modifies this, barrier
      ensures Consistent() && P.AllReturned(View())
    {
      while exists t: nat :: t < |pcs| && CanStep(t)
        invariant Consistent()
        decreases RankNow().inputs, RankNow().mapping, RankNow().pairs, RankNow().shuffle, RankNow().tokens,
                  RankNow().groups, RankNow().local
      {
        var t: nat :| t < |pcs| && CanStep(t);
        StepOnce(t);
      }
      NobodyCanStep();
    }

    lemma NobodyCanStep()
      requires Consistent() && forall t: nat :: t < |pcs| ==> !CanStep(t)
      ensures P.AllReturned(View())
    {
      forall t | 0 <= t < |pcs| ensures !P.Enabled(View(), t) {
        assert !CanStep(t);
      }
      DeadlockFree(job, View());
    }
  }

  lemma RoundsFindSortedVectors(job: P.Job, s: P.State, t: nat)
    requires P.ValidJob(job) && Inv(job, s) && t < |s.pcs|
    ensures s.pcs[t].Looping? ==> AllSorted(job.less, s.vectors)
  {
    assert s.pcs[t].Looping? ==> t == 0;
  }

  /** Whatever the scheduler does, the call ends, and the output is one reduce for each group of a partition of all
      emissions into single-key groups, no key in more groups than there are threads. If the outer sort is by key it
      is the output of the sequential program; if it is by address it is so for two threads or untangled pairs. */
  method RunMapReduceFramework(job: P.Job) returns (output: seq<Pair>, ghost groups: seq<Vec>)
    requires P.ValidJob(job)
    ensures multiset(output) == MSum(groups, ReduceOf(job.reducer))
    ensures Union(groups) == multiset(Emissions(job.mapper, job.inputs)) && AllHomogeneous(job.less, groups)
    ensures forall k :: Holders(job.less, groups, k) <= job.threads
    ensures OrderInsensitive(job.reducer) && L.NoShareSkips(job) ==> multiset(output) == multiset(Sequential(job))
    ensures OrderInsensitive(job.reducer) && SortsByKey(job.less, job.sortVectors) ==>
              multiset(output) == multiset(Sequential(job))
    ensures OrderInsensitive(job.reducer) && A.SortsByAddress(job.sortVectors)
            && (job.threads <= 2 || A.Untangled(job.less, multiset(Emissions(job.mapper, job.inputs)))) ==>
              multiset(output) == multiset(Sequential(job))
  {
    var framework := new Framework(job);
    InitialInv(job);
    framework.RunToEnd();
    output, groups := framework.outputVec, framework.pushed;
    ghost var end := framework.View();
    FinishedRun(job, end);
    if OrderInsensitive(job.reducer) && L.NoShareSkips(job) {
      L.SkiplessRunIsSequential(job, end);
    }
    if OrderInsensitive(job.reducer) && SortsByKey(job.less, job.sortVectors) {
      KeyOrderedRunIsSequential(job, end);
    }
    if OrderInsensitive(job.reducer) && A.SortsByAddress(job.sortVectors)
       && (job.threads <= 2 || A.Untangled(job.less, multiset(Emissions(job.mapper, job.inputs)))) {
      A.AddressOrderedRunIsSequential(job, end);
    }
  }
}
