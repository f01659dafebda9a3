/** Whole runs of the thread library: who runs again, when, and after how many switches. */
module UthreadsRuns {
  import opened Uthreads
  import opened UthreadsInvariant

  /** No call of the run is faulty in the state in which it is made. */
  predicate Clean(s: State, es: seq<Event>)
    decreases |es|
  {
    es == [] || (!Faulty(s, es[0]) && Clean(Apply(s, es[0]), es[1..]))
  }

  lemma {:induction false} CleanConcat(s: State, es: seq<Event>, fs: seq<Event>)
    ensures Clean(s, es + fs) <==> Clean(s, es) && Clean(Exec(s, es), fs)
    decreases |es|
  {
    if es == [] {
      assert es + fs == fs;
    } else {
      CleanConcat(Apply(s, es[0]), es[1..], fs);
      assert (es + fs)[1..] == es[1..] + fs;
    }
  }

  /** Nothing happens after the end of the process, or after undefined behaviour. */
  lemma {:induction false} StoppedStays(s: State, es: seq<Event>)
    requires !s.status.Running?
    ensures Exec(s, es) == s
    decreases |es|
  {
    if es != [] {
      StoppedStays(s, es[1..]);
    }
  }

  /** A run without faulty calls never leaves the sound states: in particular it never pops an empty deque, never
      uses a null entry, and always runs a live thread that nobody has blocked. */
  lemma {:induction false} RunsAreSound(s: State, es: seq<Event>)
    requires Sound(s) && Clean(s, es)
    ensures Sound(Exec(s, es))
    decreases |es|
  {
    if es != [] {
      if s.status.Exited? {
        StoppedStays(s, es);
      } else {
        KeptIff(s, es[0]);
        RunsAreSound(Apply(s, es[0]), es[1..]);
      }
    }
  }

  datatype Condition = IsRunning | IsReady | IsBlocked

  /** The state in which the documentation of the library puts a thread. */
  ghost predicate In(s: State, i: int, c: Condition)
    requires i in s.threads
  {
    match c
    case IsRunning => i == s.current && Runnable(s.threads[i]) && i !in s.ready
    case IsReady => i != s.current && Runnable(s.threads[i])
                    && exists k :: 0 <= k < |s.ready| && s.ready[k] == i
                                   && forall j :: 0 <= j < |s.ready| && j != k ==> s.ready[j] != i
    case IsBlocked => i != s.current && !Runnable(s.threads[i]) && i !in s.ready
  }

  lemma OneCondition(s: State, i: int)
    requires Inv(s) && i in s.threads
    ensures exists c :: In(s, i, c) && forall d :: In(s, i, d) ==> d == c
  {
    if i == s.current {
      assert In(s, i, IsRunning);
    } else if Runnable(s.threads[i]) {
      assert i in s.ready;
      assert In(s, i, IsReady);
    } else {
      assert In(s, i, IsBlocked);
    }
  }

  /** In every run each live thread is in exactly one of the three states, and the ready list holds live ones only. */
  lemma ThreadsArePartitioned(es: seq<Event>, i: int)
    requires Clean(Initial(), es) && Exec(Initial(), es).status.Running?
    ensures var s := Exec(Initial(), es);
            && (i in s.ready ==> i in s.threads)
            && (i in s.threads ==> exists c :: In(s, i, c) && forall d :: In(s, i, d) ==> d == c)
  {
    InitialInv();
    RunsAreSound(Initial(), es);
    if i in Exec(Initial(), es).threads {
      OneCondition(Exec(Initial(), es), i);
    }
  }

  // ------------------------------------------------------------ waiting

  /** One event leaves a waiting thread waiting, unless it terminates the thread waited for. */
  lemma WaitStep(s: State, e: Event, i: int, t: int)
    requires Inv(s) && WaitsFor(s.threads, i, t) && !Faulty(s, e) && e != Terminate(t)
    ensures WaitsFor(Apply(s, e).threads, i, t)
  {
    match e {
      case Tick => DispatchKeeps(s.(ready := s.ready + [s.current]));
      case Spawn =>
      case Terminate(tid) =>
        if tid in s.threads && tid != MAIN_THREAD_ID {
          TerminateIs(s, tid);
          SurvivorsWait(s.threads, tid, i, t);
        }
      case Block(tid) =>
      case Resume(tid) =>
      case Sync(tid) =>
    }
  }

  lemma WaiterDoesNotRun(s: State, i: int, t: int)
    requires Inv(s) && WaitsFor(s.threads, i, t)
    ensures s.current != i && i !in s.ready && i in s.threads && s.threads[i].syncBlocked
  {
  }

  /** A waiting thread stays off the processor for as long as the thread it waits for is not terminated. */
  lemma {:induction false} WaitsUntilTermination(s: State, i: int, t: int, es: seq<Event>)
    requires Inv(s) && WaitsFor(s.threads, i, t) && Clean(s, es) && Terminate(t) !in es
    ensures Exec(s, es).current != i && WaitsFor(Exec(s, es).threads, i, t)
    decreases |es|
  {
    WaiterDoesNotRun(s, i, t);
    if es != [] {
      var s' := Apply(s, es[0]);
      KeptIff(s, es[0]);
      if s'.status.Exited? {
        StoppedStays(s', es[1..]);
      } else {
        WaitStep(s, es[0], i, t);
        WaitsUntilTermination(s', i, t, es[1..]);
      }
    }
  }

  /** A successful sync makes its caller wait. */
  lemma SyncWaits(s: State, t: int)
    requires Inv(s) && !Faulty(s, Sync(t)) && Code(s, Sync(t)) == 0
    ensures Inv(Apply(s, Sync(t))) && WaitsFor(Apply(s, Sync(t)).threads, s.current, t)
  {
    KeptIff(s, Sync(t));
    StartWaitingKeeps(s.threads, s.current, t);
    var mid := s.(threads := StartWaiting(s.threads, s.current, t));
    DispatchKeeps(mid);
    assert WaitsFor(mid.threads, s.current, t);
  }

  /** The guarantee of `uthread_sync`: its caller runs again only after the thread it named has been terminated. */
  lemma RunsAgainAfterTermination(s: State, t: int, es: seq<Event>)
    requires Inv(s) && Clean(s, [Sync(t)] + es) && Code(s, Sync(t)) == 0
    requires Exec(s, [Sync(t)] + es).current == s.current
    ensures Terminate(t) in es
  {
    assert ([Sync(t)] + es)[1..] == es;
    SyncWaits(s, t);
    if Terminate(t) !in es {
      WaitsUntilTermination(Apply(s, Sync(t)), s.current, t, es);
    }
  }

  /** One event leaves a directly blocked thread blocked, unless it resumes or terminates it. */
  lemma BlockStep(s: State, e: Event, i: int)
    requires Inv(s) && i in s.threads && s.threads[i].blockedDirectly && !Faulty(s, e)
    requires e != Resume(i) && e != Terminate(i)
    ensures i in Apply(s, e).threads && Apply(s, e).threads[i].blockedDirectly
  {
    match e {
      case Terminate(tid) =>
        if tid in s.threads && tid != MAIN_THREAD_ID {
          TerminateIs(s, tid);
        }
      case _ =>
    }
  }

  /** A directly blocked thread stays off the processor until it is resumed. */
  lemma {:induction false} BlockedUntilResumed(s: State, i: int, es: seq<Event>)
    requires Inv(s) && i in s.threads && s.threads[i].blockedDirectly && Clean(s, es)
    requires Resume(i) !in es && Terminate(i) !in es
    ensures Exec(s, es).current != i && i in Exec(s, es).threads && Exec(s, es).threads[i].blockedDirectly
    decreases |es|
  {
    if es != [] {
      var s' := Apply(s, es[0]);
      KeptIff(s, es[0]);
      BlockStep(s, es[0], i);
      if s'.status.Exited? {
        StoppedStays(s', es[1..]);
      } else {
        BlockedUntilResumed(s', i, es[1..]);
      }
    }
  }

  /** A thread that waits for `t` and is blocked as well runs again only after both releases. */
  lemma BothReleasesNeeded(s: State, t: int, before: seq<Event>, after: seq<Event>)
    requires Inv(s) && Code(s, Sync(t)) == 0
    requires Clean(s, [Sync(t)] + before + [Block(s.current)] + after)
    requires Terminate(t) !in before
    requires Terminate(s.current) !in after
    requires Exec(s, [Sync(t)] + before + [Block(s.current)] + after).current == s.current
    ensures Terminate(t) in after && Resume(s.current) in after
  {
    var i := s.current;
    var first := [Sync(t)] + before;
    ExecConcat(s, first + [Block(i)], after);
    CleanConcat(s, first + [Block(i)], after);
    ExecConcat(s, first, [Block(i)]);
    CleanConcat(s, first, [Block(i)]);
    assert first[1..] == before;
    SyncWaits(s, t);
    var s1 := Apply(s, Sync(t));
    WaitsUntilTermination(s1, i, t, before);
    var s2 := Exec(s1, before);
    RunsAreSound(s1, before);
    assert Exec(s2, [Block(i)]) == Apply(s2, Block(i));
    if s2.status.Exited? {
      StoppedStays(s2, [Block(i)]);
      StoppedStays(s2, after);
      assert false;
    }
    KeptIff(s2, Block(i));
    WaiterDoesNotRun(s2, i, t);
    WaitStep(s2, Block(i), i, t);
    var s3 := Apply(s2, Block(i));
    if Terminate(t) !in after {
      WaitsUntilTermination(s3, i, t, after);
    }
    if Resume(i) !in after {
      BlockedUntilResumed(s3, i, after);
    }
  }

  /** A terminated thread releases its waiters: each becomes ready unless it is blocked directly. */
  lemma TerminationReleases(s: State, i: int, t: int)
    requires Inv(s) && WaitsFor(s.threads, i, t) && t != MAIN_THREAD_ID && !Faulty(s, Terminate(t))
    ensures var s' := Apply(s, Terminate(t));
            && Inv(s') && i in s'.threads && !s'.threads[i].syncBlocked && s'.current != i
            && s'.threads[i].blockedDirectly == s.threads[i].blockedDirectly
            && (i in s'.ready <==> !s.threads[i].blockedDirectly)
  {
    var mid := AfterTerminate(s, t);
    KeptIff(s, Terminate(t));
    TerminateIs(s, t);
    WaitersLive(s, t);
    assert s.threads[i].syncBlocked && i != s.current && i !in s.ready;
    if s.current == t {
      TerminateReady(s, t);
      WithoutMembers(s.ready, t);
      assert MAIN_THREAD_ID in s.ready;
      assert MAIN_THREAD_ID in Without(s.ready, t);
      assert mid.ready[0] == Without(s.ready, t)[0];
      assert mid.ready[0] in Without(s.ready, t);
    }
  }

  /** A waiting thread that is resumed keeps waiting; one that no longer waits becomes ready. */
  lemma ResumeReleases(s: State, i: int)
    requires Inv(s) && i in s.threads && s.threads[i].blockedDirectly
    ensures var s' := Apply(s, Resume(i));
            && Inv(s') && i in s'.threads && !s'.threads[i].blockedDirectly
            && s'.threads[i].syncBlocked == s.threads[i].syncBlocked
            && (i in s'.ready <==> !s.threads[i].syncBlocked)
  {
    KeptIff(s, Resume(i));
  }

  /** A thread that is not blocked directly stays so unless somebody blocks it. */
  lemma UnblockedStep(s: State, e: Event, i: int, t: int)
    requires Inv(s) && WaitsFor(s.threads, i, t) && !s.threads[i].blockedDirectly && !Faulty(s, e)
    requires e != Block(i) && e != Terminate(t)
    ensures i in Apply(s, e).threads && !Apply(s, e).threads[i].blockedDirectly
  {
    match e {
      case Terminate(tid) =>
        if tid in s.threads && tid != MAIN_THREAD_ID {
          TerminateIs(s, tid);
        }
      case _ =>
    }
  }

  /** A blocked thread does not run, so it cannot start to wait. */
  lemma NoNewWaitStep(s: State, e: Event, i: int)
    requires Inv(s) && i in s.threads && s.threads[i].blockedDirectly && !s.threads[i].syncBlocked && !Faulty(s, e)
    requires e != Resume(i) && e != Terminate(i)
    ensures i in Apply(s, e).threads && !Apply(s, e).threads[i].syncBlocked
  {
    match e {
      case Terminate(tid) =>
        if tid in s.threads && tid != MAIN_THREAD_ID {
          TerminateIs(s, tid);
        }
      case _ =>
    }
  }

  lemma {:induction false} StaysUnblocked(s: State, i: int, t: int, es: seq<Event>)
    requires Inv(s) && WaitsFor(s.threads, i, t) && i in s.threads && !s.threads[i].blockedDirectly && Clean(s, es)
    requires Terminate(t) !in es && Block(i) !in es && Terminate(MAIN_THREAD_ID) !in es
    ensures var s' := Exec(s, es);
            Inv(s') && WaitsFor(s'.threads, i, t) && i in s'.threads && !s'.threads[i].blockedDirectly
    decreases |es|
  {
    if es != [] {
      KeptIff(s, es[0]);
      WaitStep(s, es[0], i, t);
      UnblockedStep(s, es[0], i, t);
      StaysUnblocked(Apply(s, es[0]), i, t, es[1..]);
    }
  }

  lemma {:induction false} StaysBlockedOnly(s: State, i: int, es: seq<Event>)
    requires Inv(s) && i in s.threads && s.threads[i].blockedDirectly && !s.threads[i].syncBlocked && Clean(s, es)
    requires Resume(i) !in es && Terminate(i) !in es && Terminate(MAIN_THREAD_ID) !in es
    ensures var s' := Exec(s, es);
            Inv(s') && i in s'.threads && s'.threads[i].blockedDirectly && !s'.threads[i].syncBlocked
    decreases |es|
  {
    if es != [] {
      KeptIff(s, es[0]);
      BlockStep(s, es[0], i);
      NoNewWaitStep(s, es[0], i);
      StaysBlockedOnly(Apply(s, es[0]), i, es[1..]);
    }
  }

  lemma ExecEnds(s: State, first: Event, es: seq<Event>, last: Event)
    ensures Exec(s, [first] + es) == Exec(Apply(s, first), es)
    ensures Exec(s, [first] + es + [last]) == Apply(Exec(s, [first] + es), last)
    ensures Clean(s, [first] + es + [last]) <==>
            !Faulty(s, first) && Clean(Apply(s, first), es) && !Faulty(Exec(s, [first] + es), last)
  {
    assert ([first] + es)[1..] == es;
    ExecConcat(s, [first] + es, [last]);
    CleanConcat(s, [first] + es, [last]);
    assert Exec(Exec(s, [first] + es), [last]) == Apply(Exec(s, [first] + es), last);
  }

  /** Resumed first and released later, with anything in between: the termination makes the thread ready, and nothing
      does before. */
  lemma ReadyOnTermination(s: State, i: int, t: int, es: seq<Event>)
    requires Inv(s) && WaitsFor(s.threads, i, t) && i in s.threads && s.threads[i].blockedDirectly
    requires t != MAIN_THREAD_ID && Clean(s, [Resume(i)] + es + [Terminate(t)])
    requires Terminate(t) !in es && Block(i) !in es && Terminate(MAIN_THREAD_ID) !in es
    ensures i !in Exec(s, [Resume(i)] + es).ready && Exec(s, [Resume(i)] + es).current != i
    ensures i in Exec(s, [Resume(i)] + es + [Terminate(t)]).ready
  {
    ExecEnds(s, Resume(i), es, Terminate(t));
    ResumeReleases(s, i);
    WaitStep(s, Resume(i), i, t);
    StaysUnblocked(Apply(s, Resume(i)), i, t, es);
    WaiterDoesNotRun(Exec(s, [Resume(i)] + es), i, t);
    TerminationReleases(Exec(s, [Resume(i)] + es), i, t);
  }

  /** Released first and resumed later, with anything in between: the resume makes the thread ready, and nothing does
      before. */
  lemma ReadyOnResume(s: State, i: int, t: int, es: seq<Event>)
    requires Inv(s) && WaitsFor(s.threads, i, t) && i in s.threads && s.threads[i].blockedDirectly
    requires t != MAIN_THREAD_ID && Clean(s, [Terminate(t)] + es + [Resume(i)])
    requires Resume(i) !in es && Terminate(i) !in es && Terminate(MAIN_THREAD_ID) !in es
    ensures i !in Exec(s, [Terminate(t)] + es).ready && Exec(s, [Terminate(t)] + es).current != i
    ensures i in Exec(s, [Terminate(t)] + es + [Resume(i)]).ready
  {
    ExecEnds(s, Terminate(t), es, Resume(i));
    TerminationReleases(s, i, t);
    StaysBlockedOnly(Apply(s, Terminate(t)), i, es);
    ResumeReleases(Exec(s, [Terminate(t)] + es), i);
  }

  // ------------------------------------------------------------ first come, first released

  /** No event takes anybody out of a waiting list, unless it terminates the list's thread; newcomers go to the end. */
  lemma WaitersStayInOrder(s: State, e: Event, t: int)
    requires Inv(s) && t in s.threads && !Faulty(s, e) && e != Terminate(t)
    ensures t in Apply(s, e).threads && s.threads[t].dependencies <= Apply(s, e).threads[t].dependencies
  {
    match e {
      case Terminate(tid) =>
        if tid in s.threads && tid != MAIN_THREAD_ID {
          TerminateIs(s, tid);
        }
      case _ =>
    }
  }

  lemma {:induction false} WaitersStayInOrderInRuns(s: State, es: seq<Event>, t: int)
    requires Inv(s) && t in s.threads && Clean(s, es) && Terminate(t) !in es
    ensures t in Exec(s, es).threads && s.threads[t].dependencies <= Exec(s, es).threads[t].dependencies
    decreases |es|
  {
    if es != [] {
      var s' := Apply(s, es[0]);
      KeptIff(s, es[0]);
      WaitersStayInOrder(s, es[0], t);
      if s'.status.Exited? {
        StoppedStays(s', es[1..]);
      } else {
        WaitersStayInOrderInRuns(s', es[1..], t);
      }
    }
  }

  /** `i` stands before `j` in the list. */
  ghost predicate Precedes(ids: seq<int>, i: int, j: int) {
    exists a, b :: 0 <= a < b < |ids| && ids[a] == i && ids[b] == j
  }

  lemma {:induction false} NotBlockedKeepsOrder(threads: Threads, waiting: seq<int>, i: int, j: int)
    requires forall x :: x in waiting ==> x in threads
    requires Precedes(waiting, i, j) && !threads[i].blockedDirectly && !threads[j].blockedDirectly
    ensures Precedes(NotBlocked(threads, waiting), i, j)
    decreases |waiting|
  {
    var a, b :| 0 <= a < b < |waiting| && waiting[a] == i && waiting[b] == j;
    var rest := waiting[1..];
    assert rest[b-1] == j;
    if a == 0 {
      var x := NotBlockedHas(threads, rest, j);
      assert NotBlocked(threads, waiting) == [i] + NotBlocked(threads, rest);
      assert NotBlocked(threads, waiting)[0] == i && NotBlocked(threads, waiting)[x+1] == j;
    } else {
      assert rest[a-1] == i;
      NotBlockedKeepsOrder(threads, rest, i, j);
      var c, d :| 0 <= c < d < |NotBlocked(threads, rest)|
                  && NotBlocked(threads, rest)[c] == i && NotBlocked(threads, rest)[d] == j;
      var skip := |NotBlocked(threads, waiting)| - |NotBlocked(threads, rest)|;
      assert NotBlocked(threads, waiting)[c+skip] == i && NotBlocked(threads, waiting)[d+skip] == j;
    }
  }

  lemma {:induction false} NotBlockedHas(threads: Threads, waiting: seq<int>, j: int) returns (x: nat)
    requires forall x :: x in waiting ==> x in threads
    requires j in waiting && !threads[j].blockedDirectly
    ensures x < |NotBlocked(threads, waiting)| && NotBlocked(threads, waiting)[x] == j
    decreases |waiting|
  {
    if waiting[0] == j {
      x := 0;
    } else {
      x := NotBlockedHas(threads, waiting[1..], j);
      if !threads[waiting[0]].blockedDirectly {
        x := x + 1;
      }
    }
  }

  /** Of two threads that wait for `t`, neither blocked directly, the one that called sync first is ahead in the ready
      list when `t` is terminated. */
  lemma FirstComeFirstReleased(s: State, i: int, j: int, t: int)
    requires Inv(s) && t in s.threads && t != MAIN_THREAD_ID && !Faulty(s, Terminate(t))
    requires Precedes(s.threads[t].dependencies, i, j)
    requires WaitsFor(s.threads, i, t) && WaitsFor(s.threads, j, t)
    requires i in s.threads && !s.threads[i].blockedDirectly && j in s.threads && !s.threads[j].blockedDirectly
    ensures Precedes(Apply(s, Terminate(t)).ready, i, j)
  {
    WaitersLive(s, t);
    var mid := AfterTerminate(s, t);
    var kept, freed := Without(s.ready, t), NotBlocked(s.threads, s.threads[t].dependencies);
    KeptIff(s, Terminate(t));
    TerminateIs(s, t);
    NotBlockedKeepsOrder(s.threads, s.threads[t].dependencies, i, j);
    var a, b :| 0 <= a < b < |freed| && freed[a] == i && freed[b] == j;
    assert mid.ready[|kept| + a] == i && mid.ready[|kept| + b] == j;
    if s.current == t {
      WithoutMembers(s.ready, t);
      assert MAIN_THREAD_ID in s.ready && MAIN_THREAD_ID in kept;
      var s' := Apply(s, Terminate(t));
      TerminateReady(s, t);
      assert s'.ready == mid.ready[1..] by { TerminatedPops(s, t); }
      assert s'.ready[|kept| + a - 1] == i && s'.ready[|kept| + b - 1] == j;
    }
  }

  lemma TerminatedPops(s: State, t: int)
    requires Inv(s) && t in s.threads && t != MAIN_THREAD_ID && !Faulty(s, Terminate(t)) && s.current == t
    ensures AfterTerminate(s, t).ready != [] && Apply(s, Terminate(t)).ready == AfterTerminate(s, t).ready[1..]
  {
    KeptIff(s, Terminate(t));
    TerminateIs(s, t);
  }

  // ------------------------------------------------------------ bounded waiting

  /** Thread `i` is in the ready list with at most `k` threads before it. */
  ghost predicate ReadyWithin(s: State, i: int, k: int) {
    exists j :: 0 <= j < |s.ready| && j <= k && s.ready[j] == i
  }

  lemma {:induction false} WithoutAdvances(ids: seq<int>, tid: int, j: nat)
    requires j < |ids| && ids[j] != tid
    ensures exists j' :: 0 <= j' < |Without(ids, tid)| && j' <= j && Without(ids, tid)[j'] == ids[j]
  {
    var init := ids[..|ids|-1];
    if j == |ids| - 1 {
      WithoutShorter(init, tid);
      assert Without(ids, tid)[|Without(init, tid)|] == ids[j];
    } else {
      WithoutAdvances(init, tid, j);
      var j' :| 0 <= j' < |Without(init, tid)| && j' <= j && Without(init, tid)[j'] == init[j];
      assert Without(ids, tid)[j'] == ids[j];
    }
  }

  lemma {:induction false} WithoutShorter(ids: seq<int>, tid: int)
    ensures |Without(ids, tid)| <= |ids|
  {
    if ids != [] {
      WithoutShorter(ids[..|ids|-1], tid);
    }
  }

  /** A switch brings every ready thread one place closer, or runs it. */
  lemma DispatchAdvances(s: State, i: int, k: int)
    requires BeforeDispatch(s) && ReadyWithin(s, i, k)
    ensures Dispatch(s).current == i || ReadyWithin(Dispatch(s), i, k - 1)
  {
    var j :| 0 <= j < |s.ready| && j <= k && s.ready[j] == i;
    if j > 0 {
      assert Dispatch(s).ready[j-1] == i;
    }
  }

  lemma AppendKeepsPlace(s: State, s': State, i: int, k: int)
    requires ReadyWithin(s, i, k) && s.ready <= s'.ready
    ensures ReadyWithin(s', i, k)
  {
    var j :| 0 <= j < |s.ready| && j <= k && s.ready[j] == i;
    assert s'.ready[j] == i;
  }

  lemma WithoutKeepsPlace(s: State, s': State, tid: int, i: int, k: int)
    requires ReadyWithin(s, i, k) && i != tid && Without(s.ready, tid) <= s'.ready
    ensures ReadyWithin(s', i, k)
  {
    var j :| 0 <= j < |s.ready| && j <= k && s.ready[j] == i;
    WithoutAdvances(s.ready, tid, j);
    var j' :| 0 <= j' < |Without(s.ready, tid)| && j' <= j && Without(s.ready, tid)[j'] == i;
    assert s'.ready[j'] == i;
  }

  /** The number of switches of one event. */
  function Switches(s: State, e: Event): int {
    Apply(s, e).total - s.total
  }

  /** No event moves a ready thread back; every switch moves it forward or runs it. */
  lemma ReadyStep(s: State, e: Event, i: int, k: int)
    requires Inv(s) && ReadyWithin(s, i, k) && !Faulty(s, e) && e != Block(i) && e != Terminate(i)
    ensures 0 <= Switches(s, e) <= 1
    ensures Apply(s, e).current == i || ReadyWithin(Apply(s, e), i, k - Switches(s, e))
  {
    var s' := Apply(s, e);
    match e {
      case Tick =>
        var mid := s.(ready := s.ready + [s.current]);
        AppendKeepsPlace(s, mid, i, k);
        DispatchKeeps(mid);
        DispatchAdvances(mid, i, k);
      case Spawn => AppendKeepsPlace(s, s', i, k);
      case Resume(tid) => AppendKeepsPlace(s, s', i, k);
      case Block(tid) => BlockPlace(s, tid, i, k);
      case Sync(tid) => SyncPlace(s, tid, i, k);
      case Terminate(tid) => TerminatePlace(s, tid, i, k);
    }
  }

  lemma BlockPlace(s: State, tid: int, i: int, k: int)
    requires Inv(s) && ReadyWithin(s, i, k) && !Faulty(s, Block(tid)) && tid != i
    ensures var s' := Apply(s, Block(tid));
            && 0 <= s'.total - s.total <= 1
            && (s'.current == i || ReadyWithin(s', i, k - (s'.total - s.total)))
  {
    var s' := Apply(s, Block(tid));
    if tid in s.threads && tid != MAIN_THREAD_ID {
      var info := s.threads[tid].(blockedDirectly := true);
      var mid := s.(threads := s.threads[tid := info]);
      BlockFrame(s.threads, tid, info);
      if s.current == tid {
        AppendKeepsPlace(s, mid, i, k);
        DispatchKeeps(mid);
        DispatchAdvances(mid, i, k);
      } else if !s.threads[tid].blockedDirectly {
        WithoutKeepsPlace(s, s', tid, i, k);
      }
    }
  }

  lemma SyncPlace(s: State, tid: int, i: int, k: int)
    requires Inv(s) && ReadyWithin(s, i, k) && !Faulty(s, Sync(tid))
    ensures var s' := Apply(s, Sync(tid));
            && 0 <= s'.total - s.total <= 1
            && (s'.current == i || ReadyWithin(s', i, k - (s'.total - s.total)))
  {
    if tid in s.threads && s.current != MAIN_THREAD_ID && tid != s.current {
      var mid := s.(threads := StartWaiting(s.threads, s.current, tid));
      StartWaitingKeeps(s.threads, s.current, tid);
      AppendKeepsPlace(s, mid, i, k);
      DispatchKeeps(mid);
      DispatchAdvances(mid, i, k);
    }
  }

  lemma TerminatePlace(s: State, tid: int, i: int, k: int)
    requires Inv(s) && ReadyWithin(s, i, k) && !Faulty(s, Terminate(tid)) && tid != i
    ensures var s' := Apply(s, Terminate(tid));
            && 0 <= s'.total - s.total <= 1
            && (s'.current == i || ReadyWithin(s', i, k - (s'.total - s.total)))
  {
    if tid in s.threads && tid != MAIN_THREAD_ID {
      var mid := AfterTerminate(s, tid);
      TerminateIs(s, tid);
      WithoutKeepsPlace(s, mid, tid, i, k);
      if s.current == tid {
        TerminateReady(s, tid);
        SurvivorsKeep(s.threads, tid);
        SurvivorsQuantums(s.threads, tid);
        WaitersLive(s, tid);
        DispatchKeeps(mid);
        DispatchAdvances(mid, i, k);
      }
    }
  }

  /** Thread `i` is the running one in some state of the run. */
  predicate Runs(s: State, i: int, es: seq<Event>)
    decreases |es|
  {
    s.current == i || (es != [] && Runs(Apply(s, es[0]), i, es[1..]))
  }

  lemma {:induction false} RunsMeans(s: State, i: int, es: seq<Event>)
    ensures Runs(s, i, es) <==> exists n :: 0 <= n <= |es| && Exec(s, es[..n]).current == i
    decreases |es|
  {
    assert Exec(s, es[..0]) == s;
    if es != [] {
      RunsMeans(Apply(s, es[0]), i, es[1..]);
      forall n | 0 <= n < |es| ensures Exec(s, es[..n+1]) == Exec(Apply(s, es[0]), es[1..][..n]) {
        assert es[..n+1][1..] == es[1..][..n];
      }
      if n :| 0 <= n <= |es| && Exec(s, es[..n]).current == i && n > 0 {
        assert Exec(Apply(s, es[0]), es[1..][..n-1]).current == i;
      }
      if n :| 0 <= n <= |es[1..]| && Exec(Apply(s, es[0]), es[1..][..n]).current == i {
        assert Exec(s, es[..n+1]).current == i;
      }
    }
  }

  /** No call of the run blocks or terminates thread `i`, or ends the process. */
  predicate LeavesAlone(es: seq<Event>, i: int) {
    forall x :: 0 <= x < |es| ==>
      es[x] != Block(i) && es[x] != Terminate(i) && es[x] != Terminate(MAIN_THREAD_ID)
  }

  /** Thread `i` runs at some point of the run, or every switch has moved it one place forward. */
  ghost predicate RunsOrMovesUp(s: State, i: int, k: int, es: seq<Event>) {
    Runs(s, i, es) || ReadyWithin(Exec(s, es), i, k - (Exec(s, es).total - s.total))
  }

  lemma MoreToCome(s: State, i: int, k: int, es: seq<Event>)
    requires es != []
    requires Apply(s, es[0]).current == i || RunsOrMovesUp(Apply(s, es[0]), i, k - Switches(s, es[0]), es[1..])
    ensures RunsOrMovesUp(s, i, k, es)
  {
  }

  lemma {:induction false} ReadyMovesUp(s: State, i: int, k: int, es: seq<Event>)
    requires Inv(s) && ReadyWithin(s, i, k) && Clean(s, es) && LeavesAlone(es, i)
    ensures RunsOrMovesUp(s, i, k, es)
    decreases |es|
  {
    if es != [] {
      KeptIff(s, es[0]);
      ReadyStep(s, es[0], i, k);
      if Apply(s, es[0]).current != i {
        ReadyMovesUp(Apply(s, es[0]), i, k - Switches(s, es[0]), es[1..]);
      }
      MoreToCome(s, i, k, es);
    }
  }

  /** Bounded waiting: a thread at index `k` of the ready list runs within `k + 1` switches, unless it is blocked or
      terminated first. */
  lemma BoundedWaiting(s: State, k: nat, es: seq<Event>)
    requires Inv(s) && k < |s.ready| && Clean(s, es) && LeavesAlone(es, s.ready[k])
    requires Exec(s, es).total - s.total >= k + 1
    ensures exists n :: 0 <= n <= |es| && Exec(s, es[..n]).current == s.ready[k]
  {
    ReadyMovesUp(s, s.ready[k], k, es);
    RunsMeans(s, s.ready[k], es);
  }

  lemma {:induction false} Range(n: nat) returns (all: set<int>)
    ensures |all| == n && forall i :: i in all <==> 0 <= i < n
  {
    if n == 0 {
      all := {};
    } else {
      all := Range(n - 1);
      all := all + {n - 1};
    }
  }

  lemma {:induction false} DistinctSize(ids: seq<int>)
    requires NoDuplicates(ids)
    ensures |set i | i in ids| == |ids|
  {
    if ids == [] {
      assert (set i | i in ids) == {};
    } else {
      var init, last := ids[..|ids|-1], ids[|ids|-1];
      DistinctSize(init);
      assert ids == init + [last] && last !in init;
      assert (set i | i in ids) == (set i | i in init) + {last};
    }
  }

  lemma SubsetSize(a: set<int>, b: set<int>)
    requires a <= b
    ensures |a| <= |b| && (|a| == |b| ==> a == b)
    decreases b
  {
    if a != b {
      if forall x :: x in b ==> x in a {
      }
      var x :| x in b && x !in a;
      SubsetSize(a, b - {x});
    }
  }

  /** There are never more than 99 ready threads, so with the lemma above nobody waits for more than 99 switches. */
  lemma ReadyIsShort(s: State)
    requires Inv(s)
    ensures |s.ready| <= MAX_THREAD_NUM - 1
  {
    var all := Range(MAX_THREAD_NUM);
    DistinctSize(s.ready);
    SubsetSize((set i | i in s.ready), all - {s.current});
  }

  // ------------------------------------------------------------ ids and quantums

  /** Spawn returns the least id that is not in use, and fails exactly when 100 threads are alive. */
  lemma SpawnTakesLeastId(s: State)
    requires Inv(s)
    ensures Code(s, Spawn) == -1 <==> |s.threads| == MAX_THREAD_NUM
    ensures var id := Code(s, Spawn);
            id != -1 ==> id !in s.threads && (forall j :: 0 <= j < id ==> j in s.threads)
                         && Apply(s, Spawn).threads.Keys == s.threads.Keys + {id}
  {
    var all := Range(MAX_THREAD_NUM);
    forall i | i in s.threads.Keys ensures i in all {
      assert InTable(i);
    }
    SubsetSize(s.threads.Keys, all);
    assert |s.threads| == |s.threads.Keys|;
    if s.unused == {} {
      forall i | i in all ensures i in s.threads.Keys {
        assert i !in s.unused;
      }
      assert s.threads.Keys == all;
    } else {
      var id := Least(s.unused);
      assert id in all && id !in s.threads.Keys;
      forall j | 0 <= j < id ensures j in s.threads {
        assert j !in s.unused;
      }
    }
  }

  /** Thread `i` has one quantum more than before if a switch from `s` to `s'` runs it, and as many otherwise. */
  predicate GainsTurn(s: State, s': State, i: int) {
    && i in s.threads && i in s'.threads
    && s'.threads[i].quantums == s.threads[i].quantums + if s'.total - s.total == 1 && s'.current == i then 1 else 0
  }

  /** A switch gives one quantum to the thread it runs; nothing else changes anybody's count. */
  lemma QuantumStep(s: State, e: Event, i: int)
    requires Inv(s) && !Faulty(s, e) && i in s.threads && e != Terminate(i)
    ensures GainsTurn(s, Apply(s, e), i)
  {
    KeptIff(s, e);
    match e {
      case Terminate(tid) => TerminateQuantum(s, tid, i);
      case Sync(tid) => SyncQuantum(s, tid, i);
      case _ =>
    }
  }

  lemma TerminateQuantum(s: State, tid: int, i: int)
    requires Inv(s) && !Faulty(s, Terminate(tid)) && i in s.threads && tid != i
    ensures GainsTurn(s, Apply(s, Terminate(tid)), i)
  {
    KeptIff(s, Terminate(tid));
    if tid in s.threads && tid != MAIN_THREAD_ID {
      TerminateIs(s, tid);
    }
  }

  lemma SyncQuantum(s: State, tid: int, i: int)
    requires Inv(s) && !Faulty(s, Sync(tid)) && i in s.threads
    ensures GainsTurn(s, Apply(s, Sync(tid)), i)
  {
    KeptIff(s, Sync(tid));
  }

  /** How often a switch of the run runs thread `i`. */
  function Turns(s: State, es: seq<Event>, i: int): nat
    decreases |es|
  {
    if es == [] then 0
    else
      var now := if Switches(s, es[0]) == 1 && Apply(s, es[0]).current == i then 1 else 0;
      now + Turns(Apply(s, es[0]), es[1..], i)
  }

  /** The quantum count of a live thread is the number of switches that have run it. */
  lemma {:induction false} QuantumsAreTurns(s: State, es: seq<Event>, i: int)
    requires Inv(s) && Clean(s, es) && i in s.threads && Terminate(i) !in es && Terminate(MAIN_THREAD_ID) !in es
    ensures i in Exec(s, es).threads
    ensures Exec(s, es).threads[i].quantums == s.threads[i].quantums + Turns(s, es, i)
    decreases |es|
  {
    if es != [] {
      KeptIff(s, es[0]);
      QuantumStep(s, es[0], i);
      QuantumsAreTurns(Apply(s, es[0]), es[1..], i);
    }
  }

  /** In every run: the total is the sum of the quantums of all threads, live or terminated. */
  lemma QuantumsConserved(es: seq<Event>)
    requires Clean(Initial(), es)
    ensures var s := Exec(Initial(), es);
            s.status.Running? ==> s.total == Quantums(s.threads, MAX_THREAD_NUM) + s.retired
  {
    InitialInv();
    RunsAreSound(Initial(), es);
  }

  // ------------------------------------------------------------ where the code breaks its promises

  /** The head test of the calls rejects an id without a thread, as documented, exactly when the id is in range. */
  lemma RejectsIff(s: State, tid: int)
    requires Inv(s)
    ensures (Rejects(s, tid) <==> tid !in s.threads) <==> InTable(tid)
  {
  }

  /** Main spawns 1 and 2; 1 waits for 2; main terminates 1. */
  const STALE_WAITER: seq<Event> := [Spawn, Spawn, Tick, Sync(2), Tick, Terminate(1)]

  function StaleState(): State {
    State(map[0 := Info(false, false, 2, []), 2 := Info(false, false, 1, [1])], [2], 0, 4,
          InitialIds() - {2}, 1, Running)
  }

  /** After the two calls of spawn. */
  function SpawnedState(): State {
    State(map[0 := Info(false, false, 1, []), 1 := Info(false, false, 0, []), 2 := Info(false, false, 0, [])],
          [1, 2], 0, 1, InitialIds() - {1} - {2}, 0, Running)
  }

  lemma SpawnTwice()
    ensures Apply(Apply(Initial(), Spawn), Spawn) == SpawnedState()
  {
    var ids := InitialIds();
    assert 1 in ids && 2 in ids - {1};
    assert Least(ids) == 1 && Least(ids - {1}) == 2;
    assert Apply(Initial(), Spawn).ready == [1];
    assert Apply(Apply(Initial(), Spawn), Spawn).ready == [1, 2];
  }

  lemma WaitAndTerminate()
    ensures Apply(Apply(Apply(Apply(SpawnedState(), Tick), Sync(2)), Tick), Terminate(1)) == StaleState()
  {
    var s3 := Apply(SpawnedState(), Tick);
    assert s3.current == 1 && s3.ready == [2, 0];
    var s4 := Apply(s3, Sync(2));
    assert s4.current == 2 && s4.ready == [0] && s4.threads[2].dependencies == [1];
    var s5 := Apply(s4, Tick);
    assert s5.current == 0 && s5.ready == [2] && s5.total == 4;
    var s6 := Apply(s5, Terminate(1));
    assert Without([2], 1) == [2] by { assert [2][..0] == []; }
    assert s6.unused == StaleState().unused;
    assert s6.threads == StaleState().threads;
  }

  lemma StaleRun()
    ensures Exec(Initial(), STALE_WAITER) == StaleState()
  {
    SpawnTwice();
    WaitAndTerminate();
    var es := STALE_WAITER;
    assert es == [Spawn, Spawn] + [Tick, Sync(2), Tick, Terminate(1)];
    ExecConcat(Initial(), [Spawn, Spawn], [Tick, Sync(2), Tick, Terminate(1)]);
    TwoSteps(Initial(), Spawn, Spawn);
    assert [Tick, Sync(2), Tick, Terminate(1)] == [Tick, Sync(2)] + [Tick, Terminate(1)];
    ExecConcat(SpawnedState(), [Tick, Sync(2)], [Tick, Terminate(1)]);
    TwoSteps(SpawnedState(), Tick, Sync(2));
    TwoSteps(Apply(Apply(SpawnedState(), Tick), Sync(2)), Tick, Terminate(1));
  }

  lemma TwoSteps(s: State, e: Event, f: Event)
    ensures Exec(s, [e, f]) == Apply(Apply(s, e), f)
  {
    assert [e, f][1..] == [f];
    assert Exec(Apply(s, e), [f]) == Exec(Apply(Apply(s, e), f), []);
  }

  /** Terminating a waiting thread and then the one it waited for uses a null entry of the thread table. */
  lemma StaleWaiterIsUsed()
    ensures Exec(Initial(), STALE_WAITER + [Terminate(2)]).status.Undefined?
  {
    StaleRun();
    ExecConcat(Initial(), STALE_WAITER, [Terminate(2)]);
    assert Exec(StaleState(), [Terminate(2)]) == Exec(Apply(StaleState(), Terminate(2)), []);
  }

  /** The id is taken again by a new thread. */
  lemma ReuseId(s: State)
    requires s == StaleState()
    ensures var s' := Apply(s, Spawn);
            && s'.status.Running? && s'.ready == [2, 1] && s'.current == 0 && s'.unused == s.unused - {1}
            && s'.threads.Keys == {0, 1, 2} && !s'.threads[1].blockedDirectly && s'.threads[2].dependencies == [1]
  {
    assert 1 in s.unused && Least(s.unused) == 1;
    assert s.ready + [1] == [2, 1];
  }

  lemma ReleaseStale(s: State)
    requires s.status.Running? && s.ready == [2, 1] && s.current == 0 && 2 !in s.unused
    requires s.threads.Keys == {0, 1, 2} && !s.threads[1].blockedDirectly && s.threads[2].dependencies == [1]
    ensures Apply(s, Terminate(2)).ready == [1, 1]
  {
    assert Without([2, 1], 2) == [1] by { assert [2, 1][..1] == [2] && [2][..0] == []; }
    var released := s.threads[1 := s.threads[1].(syncBlocked := false)];
    assert ReleaseAll(s.threads, [1], [1]) == ReleaseAll(released, [1] + [1], [1][1..]);
    assert [1][1..] == [] && [1] + [1] == [1, 1];
  }

  /** If the id is reused in between, the new thread is put into the ready list a second time. */
  lemma ReusedIdIsReadyTwice()
    ensures Exec(Initial(), STALE_WAITER + [Spawn, Terminate(2)]).ready == [1, 1]
  {
    StaleRun();
    ExecConcat(Initial(), STALE_WAITER, [Spawn, Terminate(2)]);
    TwoSteps(StaleState(), Spawn, Terminate(2));
    ReuseId(StaleState());
    ReleaseStale(Apply(StaleState(), Spawn));
  }
}
