/** What each call and the timer promise their caller, in terms of the threads, the ready list and the running thread
    before and after; and what follows for whole runs that begin with them. */
module UthreadsEffects {
  import opened Uthreads
  import opened UthreadsInvariant
  import opened UthreadsRuns

  // ------------------------------------------------------------ the vocabulary

  /** The flags and the waiting list of thread `i` are as before. */
  predicate Undisturbed(s: State, s': State, i: int) {
    && i in s.threads && i in s'.threads
    && s'.threads[i].blockedDirectly == s.threads[i].blockedDirectly
    && s'.threads[i].syncBlocked == s.threads[i].syncBlocked
    && s'.threads[i].dependencies == s.threads[i].dependencies
  }

  /** The same threads are alive, and those outside `except` are undisturbed. */
  ghost predicate OthersUndisturbed(s: State, s': State, except: set<int>) {
    && s'.threads.Keys == s.threads.Keys && s'.unused == s.unused && s'.retired == s.retired
    && forall i :: i in s.threads && i !in except ==> Undisturbed(s, s', i)
  }

  /** No switch: the same thread goes on in the same quantum, and `ready` is the ready list. */
  predicate GoesOn(s: State, s': State, ready: seq<int>) {
    s'.current == s.current && s'.total == s.total && s'.ready == ready
  }

  /** A switch: of the threads in `line` the first runs, in a new quantum, and the others are ready. */
  predicate FirstRuns(s: State, s': State, line: seq<int>) {
    line != [] && s'.current == line[0] && s'.ready == line[1..] && s'.total == s.total + 1
  }

  /** The members of `keep` in the order in which they stand in `ids`. */
  function Only(ids: seq<int>, keep: set<int>): seq<int>
  {
    if ids == [] then []
    else (if ids[0] in keep then [ids[0]] else []) + Only(ids[1..], keep)
  }

  lemma {:induction false} OnlyAppend(ids: seq<int>, i: int, keep: set<int>)
    ensures Only(ids + [i], keep) == Only(ids, keep) + if i in keep then [i] else []
  {
    if ids == [] {
      assert ids + [i] == [i] && Only([i][1..], keep) == [];
    } else {
      OnlyAppend(ids[1..], i, keep);
      var head := if ids[0] in keep then [ids[0]] else [];
      assert (ids + [i])[0] == ids[0] && (ids + [i])[1..] == ids[1..] + [i];
      assert Only(ids + [i], keep) == head + Only(ids[1..] + [i], keep);
      assert Only(ids, keep) == head + Only(ids[1..], keep);
    }
  }

  lemma {:induction false} WithoutIsOnly(ids: seq<int>, tid: int, keep: set<int>)
    requires forall i :: i in ids ==> (i in keep <==> i != tid)
    ensures Without(ids, tid) == Only(ids, keep)
  {
    if ids != [] {
      var init, last := ids[..|ids|-1], ids[|ids|-1];
      assert ids == init + [last];
      WithoutIsOnly(init, tid, keep);
      OnlyAppend(init, last, keep);
    }
  }

  lemma {:induction false} NotBlockedIsOnly(threads: Threads, waiting: seq<int>, keep: set<int>)
    requires forall i :: i in waiting ==> i in threads && (i in keep <==> !threads[i].blockedDirectly)
    ensures NotBlocked(threads, waiting) == Only(waiting, keep)
  {
    if waiting != [] {
      assert waiting[0] in waiting;
      NotBlockedIsOnly(threads, waiting[1..], keep);
    }
  }

  // ------------------------------------------------------------ one call or tick

  /** The end of a quantum: the running thread goes to the end of the ready list, and its front runs. */
  lemma TickEffect(s: State)
    requires Inv(s)
    ensures var s' := Apply(s, Tick);
            && FirstRuns(s, s', s.ready + [s.current])
            && OthersUndisturbed(s, s', {})
            && forall i :: i in s.threads ==>
                 s'.threads[i].quantums == s.threads[i].quantums + if i == s'.current then 1 else 0
  {
    var mid := s.(ready := s.ready + [s.current]);
    DispatchKeeps(mid);
  }

  /** A new thread is not blocked, nobody waits for it, and it is the last of the ready list; nothing else changes. */
  lemma SpawnEffect(s: State)
    requires Inv(s)
    ensures var id, s' := Code(s, Spawn), Apply(s, Spawn);
            if id == -1 then s' == s
            else
              && id !in s.threads && s'.threads == s.threads[id := Info(false, false, 0, [])]
              && GoesOn(s, s', s.ready + [id])
              && s'.unused == s.unused - {id} && s'.retired == s.retired
  {
  }

  /** A blocked thread is blocked and neither runs nor is ready. Only if it was running does another thread run. */
  lemma BlockEffect(s: State, tid: int)
    requires Inv(s) && tid in s.threads && tid != MAIN_THREAD_ID
    ensures var s' := Apply(s, Block(tid));
            && OthersUndisturbed(s, s', {tid})
            && s'.threads[tid] == s.threads[tid].(blockedDirectly := true)
            && tid !in s'.ready && s'.current != tid
            && if tid == s.current then FirstRuns(s, s', s.ready)
               else GoesOn(s, s', Only(s.ready, s.threads.Keys - {tid}))
  {
    if tid == s.current {
      BlockRunning(s, tid);
    } else {
      BlockOther(s, tid);
    }
  }

  lemma BlockRunning(s: State, tid: int)
    requires Inv(s) && tid == s.current && tid != MAIN_THREAD_ID
    ensures var s' := Apply(s, Block(tid));
            && s'.threads.Keys == s.threads.Keys && s'.unused == s.unused && s'.retired == s.retired
            && (forall i :: i in s.threads && i != tid ==> Undisturbed(s, s', i))
            && s'.threads[tid] == s.threads[tid].(blockedDirectly := true)
            && s'.current != tid && FirstRuns(s, s', s.ready)
  {
    var info := s.threads[tid].(blockedDirectly := true);
    BlockFrame(s.threads, tid, info);
    DispatchKeeps(s.(threads := s.threads[tid := info]));
  }

  lemma BlockOther(s: State, tid: int)
    requires Inv(s) && tid in s.threads && tid != MAIN_THREAD_ID && tid != s.current
    ensures var s' := Apply(s, Block(tid));
            && s'.threads == s.threads[tid := s.threads[tid].(blockedDirectly := true)]
            && s'.unused == s.unused && s'.retired == s.retired
            && tid !in s'.ready && GoesOn(s, s', Only(s.ready, s.threads.Keys - {tid}))
  {
    BlockOtherIs(s, tid);
    WithoutMembers(s.ready, tid);
    WithoutIsOnly(s.ready, tid, s.threads.Keys - {tid});
  }

  lemma BlockOtherIs(s: State, tid: int)
    requires Inv(s) && tid in s.threads && tid != MAIN_THREAD_ID && tid != s.current
    ensures Apply(s, Block(tid)) == s.(threads := s.threads[tid := s.threads[tid].(blockedDirectly := true)],
                                       ready := Without(s.ready, tid))
  {
    if s.threads[tid].blockedDirectly {
      WithoutAbsent(s.ready, tid);
      assert s.threads[tid := s.threads[tid].(blockedDirectly := true)] == s.threads;
    }
  }

  lemma {:induction false} WithoutAbsent(ids: seq<int>, tid: int)
    requires tid !in ids
    ensures Without(ids, tid) == ids
  {
    if ids != [] {
      WithoutAbsent(ids[..|ids|-1], tid);
    }
  }

  /** A resumed thread is no longer blocked directly, and becomes the last of the ready list unless it waits as well;
      resuming any other thread has no effect. */
  lemma ResumeEffect(s: State, tid: int)
    requires Inv(s) && tid in s.threads
    ensures var s' := Apply(s, Resume(tid));
            if s.threads[tid].blockedDirectly then
              && s'.threads == s.threads[tid := s.threads[tid].(blockedDirectly := false)]
              && GoesOn(s, s', if s.threads[tid].syncBlocked then s.ready else s.ready + [tid])
              && OthersUndisturbed(s, s', {tid})
            else s' == s
  {
  }

  /** A successful sync puts its caller at the end of the waiting list and lets the next ready thread run. The caller
      waits; it is not blocked in any other way, and nobody else is touched. */
  lemma SyncEffect(s: State, t: int)
    requires Inv(s) && !Faulty(s, Sync(t)) && Code(s, Sync(t)) == 0
    ensures var i, s' := s.current, Apply(s, Sync(t));
            && t in s.threads && t != i
            && OthersUndisturbed(s, s', {i, t})
            && s'.threads[i] == s.threads[i].(syncBlocked := true)
            && s'.threads[t].blockedDirectly == s.threads[t].blockedDirectly
            && s'.threads[t].syncBlocked == s.threads[t].syncBlocked
            && s'.threads[t].dependencies == s.threads[t].dependencies + [i]
            && FirstRuns(s, s', s.ready)
  {
    var mid := s.(threads := StartWaiting(s.threads, s.current, t));
    SyncIs(s, t);
    DispatchEffect(mid);
    assert forall i :: i in s.threads && i != s.current && i != t ==> mid.threads[i] == s.threads[i];
    assert s.ready[0] in s.ready && s.ready[0] != s.current;
  }

  lemma SyncIs(s: State, t: int)
    requires Inv(s) && !Faulty(s, Sync(t)) && Code(s, Sync(t)) == 0
    ensures t in s.threads && t != s.current && s.ready != [] && s.ready[0] in s.threads
    ensures Apply(s, Sync(t)) == Dispatch(s.(threads := StartWaiting(s.threads, s.current, t)))
  {
    assert MAIN_THREAD_ID in s.ready;
    assert s.ready[0] in s.ready;
  }

  /** The threads that termination of `tid` makes ready: those that wait for it and are not blocked directly. */
  ghost function Freed(s: State, tid: int): seq<int>
    requires tid in s.threads
  {
    Only(s.threads[tid].dependencies, set i | i in s.threads && !s.threads[i].blockedDirectly)
  }

  /** Termination takes the victim out of the table and the ready list, and frees its id. Exactly those that waited
      for it stop waiting, and those of them that are not blocked directly join the ready list, first come, first.
      Only if the victim was running does another thread run. */
  lemma TerminateEffect(s: State, tid: int)
    requires Inv(s) && tid in s.threads && tid != MAIN_THREAD_ID
    ensures var s' := Apply(s, Terminate(tid));
            var line := Only(s.ready, s.threads.Keys - {tid}) + Freed(s, tid);
            && s'.threads.Keys == s.threads.Keys - {tid} && s'.unused == s.unused + {tid}
            && s'.retired == s.retired + s.threads[tid].quantums
            && (forall i :: i in s'.threads ==>
                  && s'.threads[i].blockedDirectly == s.threads[i].blockedDirectly
                  && s'.threads[i].dependencies == s.threads[i].dependencies
                  && (s'.threads[i].syncBlocked <==> s.threads[i].syncBlocked && !WaitsFor(s.threads, i, tid)))
            && if tid == s.current then FirstRuns(s, s', line) else GoesOn(s, s', line)
  {
    TerminateIs(s, tid);
    LineAfter(s, tid);
    VictimGone(s, tid);
    if tid == s.current {
      FrontSurvives(s, tid);
      DispatchEffect(AfterTerminate(s, tid));
    }
  }

  lemma DispatchEffect(s: State)
    requires s.ready != [] && s.ready[0] in s.threads
    ensures FirstRuns(s, Dispatch(s), s.ready) && OthersUndisturbed(s, Dispatch(s), {})
  {
  }

  lemma LineAfter(s: State, tid: int)
    requires Inv(s) && tid in s.threads
    ensures AfterTerminate(s, tid).ready == Only(s.ready, s.threads.Keys - {tid}) + Freed(s, tid)
  {
    WaitersLive(s, tid);
    WithoutIsOnly(s.ready, tid, s.threads.Keys - {tid});
    NotBlockedIsOnly(s.threads, s.threads[tid].dependencies, set i | i in s.threads && !s.threads[i].blockedDirectly);
  }

  lemma VictimGone(s: State, tid: int)
    requires Inv(s) && tid in s.threads
    ensures var threads' := AfterTerminate(s, tid).threads;
            && threads'.Keys == s.threads.Keys - {tid}
            && forall i :: i in threads' ==>
                 && threads'[i].blockedDirectly == s.threads[i].blockedDirectly
                 && threads'[i].dependencies == s.threads[i].dependencies
                 && (threads'[i].syncBlocked <==> s.threads[i].syncBlocked && !WaitsFor(s.threads, i, tid))
  {
  }

  lemma FrontSurvives(s: State, tid: int)
    requires Inv(s) && tid in s.threads && tid != MAIN_THREAD_ID && tid == s.current
    ensures var mid := AfterTerminate(s, tid); mid.ready != [] && mid.ready[0] in mid.threads
  {
    var mid := AfterTerminate(s, tid);
    WithoutMembers(s.ready, tid);
    TerminateReady(s, tid);
    assert MAIN_THREAD_ID in Without(s.ready, tid);
    assert mid.ready[0] in mid.ready;
  }

  // ------------------------------------------------------------ results

  /** A call succeeds exactly if its documentation says so. */
  lemma CodeIff(s: State, tid: int)
    requires Inv(s) && InTable(tid)
    ensures Code(s, Terminate(tid)) == 0 <==> tid in s.threads
    ensures Code(s, Resume(tid)) == 0 <==> tid in s.threads
    ensures Code(s, Block(tid)) == 0 <==> tid in s.threads && tid != MAIN_THREAD_ID
    ensures Code(s, Sync(tid)) == 0 <==> tid in s.threads && s.current != MAIN_THREAD_ID && tid != s.current
  {
  }

  /** Every call but spawn returns 0 or -1, and a call that fails leaves everything as it was. */
  lemma FailureHasNoEffect(s: State, e: Event)
    requires Inv(s)
    ensures !e.Spawn? ==> Code(s, e) == 0 || Code(s, e) == -1
    ensures Code(s, e) == -1 ==> Apply(s, e) == s
  {
  }

  /** An id outside the table is not rejected; the call goes on to use it. */
  lemma OutsideTable(s: State, tid: int)
    requires Inv(s) && !InTable(tid)
    ensures Apply(s, Terminate(tid)).status.Undefined? && Apply(s, Block(tid)).status.Undefined?
    ensures Apply(s, Resume(tid)).status.Undefined?
    ensures if s.current == MAIN_THREAD_ID then Apply(s, Sync(tid)) == s else Apply(s, Sync(tid)).status.Undefined?
  {
  }

  // ------------------------------------------------------------ when a new quantum starts

  /** The timer, and calls by which the running thread blocks itself, waits or ends, lead to a scheduling decision. */
  predicate Reschedules(s: State, e: Event) {
    match e
    case Tick => true
    case Spawn => false
    case Terminate(tid) => tid == s.current
    case Block(tid) => tid == s.current && tid != MAIN_THREAD_ID
    case Resume(_) => false
    case Sync(tid) => tid in s.threads && tid != s.current && s.current != MAIN_THREAD_ID
  }

  lemma NewQuantum(s: State, e: Event)
    requires Inv(s) && !Faulty(s, e) && e != Terminate(MAIN_THREAD_ID)
    ensures Apply(s, e).total == s.total + if Reschedules(s, e) then 1 else 0
    ensures !Reschedules(s, e) ==> Apply(s, e).current == s.current
  {
    match e {
      case Tick => TickEffect(s);
      case Spawn => SpawnEffect(s);
      case Terminate(tid) => if tid in s.threads { TerminateEffect(s, tid); }
      case Block(tid) => if tid in s.threads && tid != MAIN_THREAD_ID { BlockEffect(s, tid); }
      case Resume(tid) => if tid in s.threads { ResumeEffect(s, tid); }
      case Sync(tid) => if Code(s, e) == 0 { SyncEffect(s, tid); }
    }
  }

  /** How many scheduling decisions the run makes. */
  function Decisions(s: State, es: seq<Event>): nat
    decreases |es|
  {
    if es == [] then 0
    else (if Reschedules(s, es[0]) then 1 else 0) + Decisions(Apply(s, es[0]), es[1..])
  }

  lemma {:induction false} TotalGrows(s: State, es: seq<Event>)
    requires Inv(s) && Clean(s, es) && Terminate(MAIN_THREAD_ID) !in es
    ensures Exec(s, es).total == s.total + Decisions(s, es)
    decreases |es|
  {
    if es != [] {
      KeptIff(s, es[0]);
      NewQuantum(s, es[0]);
      TotalGrows(Apply(s, es[0]), es[1..]);
    }
  }

  /** After init the main thread runs alone, in the first quantum; from then on each scheduling decision starts one. */
  lemma TotalCounts(es: seq<Event>)
    requires Clean(Initial(), es) && Terminate(MAIN_THREAD_ID) !in es
    ensures Initial().current == MAIN_THREAD_ID && Initial().threads.Keys == {MAIN_THREAD_ID}
    ensures Exec(Initial(), es).total == 1 + Decisions(Initial(), es)
  {
    InitialInv();
    TotalGrows(Initial(), es);
  }

  // ------------------------------------------------------------ whole runs

  lemma ExecFirst(s: State, e: Event, es: seq<Event>)
    ensures Exec(s, [e] + es) == Exec(Apply(s, e), es)
    ensures Clean(s, [e] + es) <==> !Faulty(s, e) && Clean(Apply(s, e), es)
  {
    assert ([e] + es)[1..] == es;
  }

  /** After a successful block the thread does not run before it is resumed, whatever happens. */
  lemma BlockedByCall(s: State, i: int, es: seq<Event>)
    requires Inv(s) && Code(s, Block(i)) == 0 && Clean(s, [Block(i)] + es)
    requires Resume(i) !in es && Terminate(i) !in es
    ensures Exec(s, [Block(i)] + es).current != i
  {
    ExecFirst(s, Block(i), es);
    KeptIff(s, Block(i));
    CodeIff(s, i);
    BlockEffect(s, i);
    BlockedUntilResumed(Apply(s, Block(i)), i, es);
  }

  /** A thread that was running or ready, is blocked and then resumed, is ready again from then on, and not before. */
  lemma ResumeEndsBlock(s: State, i: int, es: seq<Event>)
    requires Inv(s) && Code(s, Block(i)) == 0 && i in s.threads && Runnable(s.threads[i])
    requires Clean(s, [Block(i)] + es + [Resume(i)])
    requires Resume(i) !in es && Terminate(i) !in es && Terminate(MAIN_THREAD_ID) !in es
    ensures i !in Exec(s, [Block(i)] + es).ready
    ensures i in Exec(s, [Block(i)] + es + [Resume(i)]).ready
  {
    ExecEnds(s, Block(i), es, Resume(i));
    KeptIff(s, Block(i));
    CodeIff(s, i);
    BlockEffect(s, i);
    StaysBlockedOnly(Apply(s, Block(i)), i, es);
    ResumeEffect(Exec(s, [Block(i)] + es), i);
  }

  /** The caller of sync is ready again as soon as the thread it named is terminated, and not before, unless somebody
      blocks it in between. */
  lemma TerminationEndsSync(s: State, t: int, es: seq<Event>)
    requires Inv(s) && Code(s, Sync(t)) == 0 && t != MAIN_THREAD_ID
    requires Clean(s, [Sync(t)] + es + [Terminate(t)])
    requires Terminate(t) !in es && Block(s.current) !in es && Terminate(MAIN_THREAD_ID) !in es
    ensures s.current !in Exec(s, [Sync(t)] + es).ready
    ensures s.current in Exec(s, [Sync(t)] + es + [Terminate(t)]).ready
  {
    ExecEnds(s, Sync(t), es, Terminate(t));
    SyncWaits(s, t);
    SyncEffect(s, t);
    StaysUnblocked(Apply(s, Sync(t)), s.current, t, es);
    WaiterDoesNotRun(Exec(s, [Sync(t)] + es), s.current, t);
    TerminationReleases(Exec(s, [Sync(t)] + es), s.current, t);
  }

  /** A new thread runs after at most as many switches as there are ready threads when it is made, and one more. */
  lemma SpawnedRuns(s: State, es: seq<Event>)
    requires Inv(s) && Code(s, Spawn) != -1 && Clean(s, [Spawn] + es) && LeavesAlone(es, Code(s, Spawn))
    requires Exec(s, [Spawn] + es).total - s.total >= |s.ready| + 1
    ensures exists n :: 0 <= n <= |es| && Exec(Apply(s, Spawn), es[..n]).current == Code(s, Spawn)
  {
    ExecFirst(s, Spawn, es);
    KeptIff(s, Spawn);
    SpawnEffect(s);
    assert Apply(s, Spawn).ready[|s.ready|] == Code(s, Spawn);
    BoundedWaiting(Apply(s, Spawn), |s.ready|, es);
  }

  // ------------------------------------------------------------ round robin

  /** The running thread and, behind it, the ready ones. */
  function Line(s: State): seq<int> {
    [s.current] + s.ready
  }

  function Ticks(n: nat): seq<Event> {
    if n == 0 then [] else Ticks(n - 1) + [Tick]
  }

  lemma TickRotates(s: State)
    requires Inv(s)
    ensures Inv(Apply(s, Tick)) && Line(Apply(s, Tick)) == Line(s)[1..] + [Line(s)[0]]
    ensures OthersUndisturbed(s, Apply(s, Tick), {})
  {
    TickEffect(s);
    KeptIff(s, Tick);
    var q := s.ready + [s.current];
    assert Line(s)[1..] + [Line(s)[0]] == q && [q[0]] + q[1..] == q;
  }

  lemma RotateOne(q: seq<int>, n: nat)
    requires n < |q|
    ensures var r := q[n..] + q[..n]; r[1..] + [r[0]] == q[n+1..] + q[..n+1]
  {
    var r := q[n..] + q[..n];
    assert r[0] == q[n] && r[1..] == q[n+1..] + q[..n];
    assert q[..n+1] == q[..n] + [q[n]];
  }

  lemma OneMoreTick(s: State, n: nat)
    requires Inv(Exec(s, Ticks(n)))
    ensures Exec(s, Ticks(n + 1)) == Apply(Exec(s, Ticks(n)), Tick)
  {
    ExecConcat(s, Ticks(n), [Tick]);
    assert Exec(Exec(s, Ticks(n)), [Tick]) == Apply(Exec(s, Ticks(n)), Tick);
  }

  lemma RotateFurther(s: State, mid: State, n: nat)
    requires Rotated(s, mid, n) && n < |Line(s)|
    ensures Rotated(s, Apply(mid, Tick), n + 1)
  {
    TickRotates(mid);
    RotateOne(Line(s), n);
    UndisturbedTrans(s, mid, Apply(mid, Tick));
  }

  lemma UndisturbedTrans(a: State, b: State, c: State)
    requires OthersUndisturbed(a, b, {}) && OthersUndisturbed(b, c, {})
    ensures OthersUndisturbed(a, c, {})
  {
    forall i | i in a.threads ensures Undisturbed(a, c, i) {
      assert Undisturbed(a, b, i) && Undisturbed(b, c, i);
    }
  }

  /** `s'` is `s` with the line rotated by `n` places, up to quantums. */
  ghost predicate Rotated(s: State, s': State, n: nat) {
    Inv(s') && OthersUndisturbed(s, s', {}) && n <= |Line(s)| && Line(s') == Line(s)[n..] + Line(s)[..n]
  }

  lemma NotRotated(s: State)
    requires Inv(s)
    ensures Rotated(s, s, 0)
  {
    assert Line(s)[0..] + Line(s)[..0] == Line(s);
  }

  /** While only the timer acts, the line rotates and nothing else changes but the quantums. */
  lemma {:induction false} TicksRotate(s: State, n: nat)
    requires Inv(s) && n <= |Line(s)|
    ensures Rotated(s, Exec(s, Ticks(n)), n)
  {
    if n == 0 {
      NotRotated(s);
    } else {
      TicksRotate(s, n - 1);
      var mid := Exec(s, Ticks(n - 1));
      OneMoreTick(s, n - 1);
      RotateFurther(s, mid, n - 1);
    }
  }

  /** The order in which the threads of the line run when only the timer acts. */
  function Turn(s: State): seq<int> {
    s.ready + [s.current]
  }

  /** Whom the next tick runs. */
  lemma NextInTurn(s: State, mid: State, n: nat)
    requires Inv(s) && Rotated(s, mid, n) && n < |Line(s)|
    ensures Apply(mid, Tick).current == Turn(s)[n] && Turn(s)[n] !in Turn(s)[..n]
  {
    TickEffect(mid);
    var q := Line(s);
    assert Turn(mid)[0] == Line(mid)[if |q| == 1 then 0 else 1];
    NoDuplicatesConcat(s.ready, [s.current]);
  }

  lemma {:induction false} TicksCount(s: State, n: nat, i: int)
    requires Inv(s) && n <= |Line(s)| && i in s.threads
    ensures i in Exec(s, Ticks(n)).threads
    ensures Exec(s, Ticks(n)).threads[i].quantums
         == s.threads[i].quantums + if i in Turn(s)[..n] then 1 else 0
  {
    if n > 0 {
      TicksCount(s, n - 1, i);
      TicksRotate(s, n - 1);
      OneMoreTick(s, n - 1);
      CountFurther(s, Exec(s, Ticks(n - 1)), n - 1, i);
    }
  }

  lemma CountFurther(s: State, mid: State, n: nat, i: int)
    requires Inv(s) && Rotated(s, mid, n) && n < |Line(s)| && i in s.threads && i in mid.threads
    ensures i in Apply(mid, Tick).threads
    ensures Apply(mid, Tick).threads[i].quantums + (if i in Turn(s)[..n] then 1 else 0)
         == mid.threads[i].quantums + if i in Turn(s)[..n+1] then 1 else 0
  {
    NextInTurn(s, mid, n);
    TickEffect(mid);
    assert Turn(s)[..n+1] == Turn(s)[..n] + [Turn(s)[n]];
  }

  /** Round robin: after as many ticks as there are runnable threads each of them has run for one quantum, and
      everybody is in the same place again. */
  lemma RoundRobin(s: State)
    requires Inv(s)
    ensures var s' := Exec(s, Ticks(|Line(s)|));
            && s'.current == s.current && s'.ready == s.ready && OthersUndisturbed(s, s', {})
            && forall i :: i in s.threads ==>
                 s'.threads[i].quantums == s.threads[i].quantums + if Runnable(s.threads[i]) then 1 else 0
  {
    var q, s' := Line(s), Exec(s, Ticks(|Line(s)|));
    TicksRotate(s, |q|);
    assert q[|q|..] + q[..|q|] == q;
    assert Line(s')[1..] == s.ready;
    forall i | i in s.threads
      ensures s'.threads[i].quantums == s.threads[i].quantums + if Runnable(s.threads[i]) then 1 else 0
    {
      TicksCount(s, |q|, i);
      assert Turn(s)[..|q|] == Turn(s);
    }
  }
}
