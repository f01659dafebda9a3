/** The law the framework promises its client, over all runs, and exactly when it holds: for every client, every number
    of threads and every outer sort, as a condition on what the client emits. */
module Law {
  import opened Keys
  import opened Shuffle
  import opened ShuffleTheorems
  import opened Protocol
  import opened ProtocolInvariant
  import opened Progress
  import opened EndToEnd

  // ------------------------------------------------------------ every way to share out the inputs occurs

  lemma {:induction false} ExecConcat(job: Job, s: State, a: seq<nat>, b: seq<nat>)
    requires ValidJob(job) && Inv(job, s)
    ensures Exec(job, s, a + b) == Exec(job, Exec(job, s, a), b)
    decreases |a|
  {
    if a == [] {
      assert a + b == b;
    } else {
      assert (a + b)[0] == a[0] && (a + b)[1..] == a[1..] + b;
      if Enabled(s, a[0]) {
        StepKeepsInv(job, s, a[0]);
        ExecConcat(job, Step(job, s, a[0]), a[1..], b);
      } else {
        ExecConcat(job, s, a[1..], b);
      }
    }
  }

  lemma ExecOne(job: Job, s: State, t: nat)
    requires ValidJob(job) && Inv(job, s) && Enabled(s, t)
    ensures Defined(s, t) && Exec(job, s, [t]) == Step(job, s, t)
  {
    StepKeepsInv(job, s, t);
  }

  lemma RunExtends(job: Job, schedule: seq<nat>, t: nat)
    requires ValidJob(job) && Enabled(Run(job, schedule), t)
    ensures Defined(Run(job, schedule), t) && Run(job, schedule + [t]) == Step(job, Run(job, schedule), t)
  {
    InitialInv(job);
    ExecConcat(job, Initial(job), schedule, [t]);
    ExecOne(job, Run(job, schedule), t);
  }

  /** Some run leads to `s`. */
  ghost predicate Reachable(job: Job, s: State)
    requires ValidJob(job)
  {
    exists schedule :: Run(job, schedule) == s
  }

  lemma ReachableStep(job: Job, s: State, t: nat)
    requires ValidJob(job) && Reachable(job, s) && Enabled(s, t)
    ensures Defined(s, t) && Reachable(job, Step(job, s, t))
  {
    var schedule :| Run(job, schedule) == s;
    RunExtends(job, schedule, t);
  }

  lemma MapMoves(job: Job, s: State, t: nat, rest: Vec) returns (s': State)
    requires ValidJob(job) && Reachable(job, s) && t < |s.pcs| && s.pcs[t] == Mapping(rest)
    ensures Reachable(job, s') && s'.claims == s.claims && s'.next == s.next
    ensures s'.pcs == s.pcs[t := if rest == [] then Claiming else Mapping(rest[1..])]
  {
    ReachableStep(job, s, t);
    s' := Step(job, s, t);
  }

  /** A thread that is inside map can finish it on its own. */
  lemma {:induction false} MapEnds(job: Job, s: State, t: nat, rest: Vec) returns (s': State)
    requires ValidJob(job) && Reachable(job, s) && t < |s.pcs| && s.pcs[t] == Mapping(rest)
    ensures Reachable(job, s') && s'.claims == s.claims && s'.next == s.next && s'.pcs == s.pcs[t := Claiming]
    decreases |rest|
  {
    s' := MapMoves(job, s, t, rest);
    if rest != [] {
      s' := MapEnds(job, s', t, rest[1..]);
    }
  }

  lemma ClaimMoves(job: Job, s: State, t: nat) returns (s': State)
    requires ValidJob(job) && Reachable(job, s) && t < |s.pcs| && s.pcs[t].Claiming? && s.next < |job.inputs|
    ensures Reachable(job, s') && s'.claims == s.claims + [t] && s'.next == s.next + 1
    ensures s'.pcs == s.pcs[t := Mapping(job.mapper(job.inputs[s.next]))]
  {
    ReachableStep(job, s, t);
    s' := Step(job, s, t);
  }

  ghost predicate AllClaiming(job: Job, s: State) {
    |s.pcs| == job.threads && forall t :: 0 <= t < |s.pcs| ==> s.pcs[t].Claiming?
  }

  lemma ReachableInitial(job: Job) returns (s: State)
    requires ValidJob(job)
    ensures Reachable(job, s) && s.claims == [] && s.next == 0 && AllClaiming(job, s)
  {
    s := Initial(job);
    assert Run(job, []) == s;
  }

  /** While inputs are left, any thread can be the next to claim one, and emit all of it before anybody else moves. */
  lemma ShareNext(job: Job, s: State, t: nat) returns (s': State)
    requires ValidJob(job) && Reachable(job, s) && AllClaiming(job, s) && t < job.threads && s.next < |job.inputs|
    ensures Reachable(job, s') && AllClaiming(job, s') && s'.claims == s.claims + [t] && s'.next == s.next + 1
  {
    s' := ClaimMoves(job, s, t);
    s' := MapEnds(job, s', t, job.mapper(job.inputs[s.next]));
  }

  lemma {:induction false} ClaimsHappen(job: Job, claims: seq<nat>) returns (s: State)
    requires ValidJob(job) && |claims| <= |job.inputs| && forall k :: 0 <= k < |claims| ==> claims[k] < job.threads
    ensures Reachable(job, s) && AllClaiming(job, s) && s.claims == claims && s.next == |claims|
    decreases |claims|
  {
    if claims == [] {
      s := ReachableInitial(job);
    } else {
      s := ClaimsHappen(job, claims[..|claims|-1]);
      s := ShareNext(job, s, claims[|claims|-1]);
    }
  }

  lemma ClaimsOver(job: Job, s: State, t: nat)
    requires ValidJob(job) && ClaimsInv(job, s) && Enabled(s, t) && Defined(s, t) && |s.claims| == |job.inputs|
    ensures Step(job, s, t).claims == s.claims
  {
  }

  /** Every reachable state can be run to the end. */
  lemma {:induction false} CanFinish(job: Job, s: State) returns (end: State)
    requires ValidJob(job) && Inv(job, s) && Reachable(job, s)
    ensures Reachable(job, end) && AllReturned(end) && Inv(job, end)
    ensures |s.claims| == |job.inputs| ==> end.claims == s.claims
    decreases RankOf(job, s).inputs, RankOf(job, s).mapping, RankOf(job, s).pairs, RankOf(job, s).shuffle,
              RankOf(job, s).tokens, RankOf(job, s).groups, RankOf(job, s).local
  {
    if t: nat :| t < |s.pcs| && Enabled(s, t) {
      StepLowers(job, s, t);
      ReachableStep(job, s, t);
      if |s.claims| == |job.inputs| {
        ClaimsOver(job, s, t);
      }
      end := CanFinish(job, Step(job, s, t));
    } else {
      DeadlockFree(job, s);
      end := s;
    }
  }

  /** However the inputs are shared out among the threads, some finished run shares them out that way. */
  lemma EveryShareOccurs(job: Job, claims: seq<nat>) returns (end: State)
    requires ValidJob(job) && |claims| == |job.inputs| && forall k :: 0 <= k < |claims| ==> claims[k] < job.threads
    ensures Reachable(job, end) && AllReturned(end) && end.claims == claims && Inv(job, end)
  {
    var s := ClaimsHappen(job, claims);
    end := CanFinish(job, s);
  }

  // ------------------------------------------------------------ the law

  /** For every order-insensitive reduce, every finished run ends with the output of the sequential program. */
  ghost predicate MeetsLaw(job: Job)
    requires ValidJob(job)
  {
    forall reducer: Vec -> seq<Pair>, s: State ::
      OrderInsensitive(reducer) && Reachable(job.(reducer := reducer), s) && AllReturned(s) ==>
        multiset(s.output) == multiset(Sequential(job.(reducer := reducer)))
  }

  /** A run that skips a pair writes too much for the reduce that emits one pair per call. */
  lemma SkipBreaksLaw(job: Job, s: State)
    requires ValidJob(job) && job.reducer == EmitOnce && Inv(job, s) && AllReturned(s)
    requires !NeverSkips(job.less, job.sortVectors, NonEmpty(s.atOpen))
    ensures |s.output| > |Sequential(job)|
  {
    FinalState(job, s);
    FinishedRun(job, s);
    OneGroupPerKeyIff(job.less, job.sortVectors, NonEmpty(s.atOpen));
    OnceForEach(s.pushed);
    GroupsAtLeastKeys(job.less, s.pushed, Emissions(job.mapper, job.inputs));
    assert |multiset(s.output)| == |s.output|;
  }

  /** However the inputs are shared out among the threads, the early break of the shuffle loses no pair. */
  ghost predicate NoShareSkips(job: Job)
    requires ValidJob(job)
  {
    forall claims :: Shared(job, claims) ==>
      NeverSkips(job.less, job.sortVectors, NonEmpty(Shares(job, claims)))
  }

  lemma SkiplessRunIsSequential(job: Job, s: State)
    requires ValidJob(job) && Inv(job, s) && AllReturned(s) && OrderInsensitive(job.reducer) && NoShareSkips(job)
    ensures multiset(s.output) == multiset(Sequential(job))
  {
    FinalState(job, s);
    FinishedRunIsSequential(job, s);
  }

  /** The reduce has no influence on the shares. */
  lemma {:induction false} SameEmitted(job: Job, job': Job, claims: seq<nat>, t: nat)
    requires job'.mapper == job.mapper && job'.inputs == job.inputs && |claims| <= |job.inputs|
    ensures EmittedBy(job', claims, t) == EmittedBy(job, claims, t)
  {
    if claims != [] {
      SameEmitted(job, job', claims[..|claims|-1], t);
    }
  }

  lemma SameSkips(job: Job, reducer: Vec -> seq<Pair>)
    requires ValidJob(job)
    ensures NoShareSkips(job.(reducer := reducer)) == NoShareSkips(job)
  {
    var job' := job.(reducer := reducer);
    forall claims | Shared(job, claims) ensures Shares(job', claims) == Shares(job, claims) {
      forall t: nat | t < job.threads ensures Shares(job', claims)[t] == Shares(job, claims)[t] {
        SameEmitted(job, job', claims, t);
      }
    }
    assert forall claims :: Shared(job', claims) == Shared(job, claims);
  }

  lemma SkipIsSeen(job: Job, claims: seq<nat>)
    requires ValidJob(job) && job.reducer == EmitOnce && Shared(job, claims)
    requires !NeverSkips(job.less, job.sortVectors, NonEmpty(Shares(job, claims)))
    ensures exists s :: Reachable(job, s) && AllReturned(s) && multiset(s.output) != multiset(Sequential(job))
  {
    var s := EveryShareOccurs(job, claims);
    FinalState(job, s);
    SkipBreaksLaw(job, s);
    assert |multiset(s.output)| == |s.output| && |multiset(Sequential(job))| == |Sequential(job)|;
  }

  /** For every client, every number of threads and every outer sort: all runs, for all order-insensitive reduces,
      end with the output of the sequential program if and only if no way to share out the inputs makes the early
      break lose a pair. */
  lemma LawIff(job: Job)
    requires ValidJob(job)
    ensures MeetsLaw(job) <==> NoShareSkips(job)
  {
    if NoShareSkips(job) {
      forall reducer: Vec -> seq<Pair>, s: State
        | OrderInsensitive(reducer) && Reachable(job.(reducer := reducer), s) && AllReturned(s)
        ensures multiset(s.output) == multiset(Sequential(job.(reducer := reducer)))
      {
        SameSkips(job, reducer);
        SkiplessRunIsSequential(job.(reducer := reducer), s);
      }
    } else {
      var once: Vec -> seq<Pair> := EmitOnce;
      assert OrderInsensitive(once);
      var job' := job.(reducer := once);
      SameSkips(job, once);
      var claims :| Shared(job', claims) && !NeverSkips(job'.less, job'.sortVectors, NonEmpty(Shares(job', claims)));
      SkipIsSeen(job', claims);
    }
  }
}
