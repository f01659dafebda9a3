/** The invariant that couples the scheduler's data, and exactly which calls keep it. */
module UthreadsInvariant {
  import opened Uthreads

  type Threads = map<int, Info>

  // ------------------------------------------------------------ lists without duplicates

  ghost predicate NoDuplicates(ids: seq<int>) {
    forall i, j :: 0 <= i < j < |ids| ==> ids[i] != ids[j]
  }

  lemma {:induction false} WithoutMembers(ids: seq<int>, tid: int)
    ensures forall i :: i in Without(ids, tid) <==> i in ids && i != tid
    ensures NoDuplicates(ids) ==> NoDuplicates(Without(ids, tid))
  {
    if ids != [] {
      var init, last := ids[..|ids|-1], ids[|ids|-1];
      WithoutMembers(init, tid);
      assert ids == init + [last];
      if NoDuplicates(ids) {
        assert last !in init;
        NoDuplicatesConcat(Without(init, tid), [last]);
      }
    }
  }

  lemma NoDuplicatesConcat(a: seq<int>, b: seq<int>)
    requires NoDuplicates(a) && NoDuplicates(b) && forall i :: i in b ==> i !in a
    ensures NoDuplicates(a + b)
  {
    forall i, j | 0 <= i < j < |a + b| ensures (a + b)[i] != (a + b)[j] {
      if i < |a| <= j {
        assert (a + b)[j] in b && (a + b)[i] in a;
      }
    }
  }

  // ------------------------------------------------------------ the invariant

  predicate Runnable(info: Info) {
    !info.blockedDirectly && !info.syncBlocked
  }

  /** The ready list holds every runnable thread exactly once, and nothing else. */
  ghost predicate AllReady(threads: Threads, ready: seq<int>) {
    && NoDuplicates(ready)
    && forall i :: i in ready <==> i in threads && Runnable(threads[i])
  }

  /** A live thread is running, ready or blocked: the running one and the main one are runnable, and the ready list
      holds every other runnable thread exactly once. */
  ghost predicate ReadyInv(threads: Threads, ready: seq<int>, current: int) {
    && MAIN_THREAD_ID in threads && Runnable(threads[MAIN_THREAD_ID])
    && current in threads && Runnable(threads[current])
    && NoDuplicates(ready)
    && forall i :: i in ready <==> i in threads && Runnable(threads[i]) && i != current
  }

  ghost predicate WaitsFor(threads: Threads, i: int, t: int) {
    t in threads && i in threads[t].dependencies
  }

  /** A live thread waits for another exactly if it occurs, once, in the list of exactly one other live thread. */
  ghost predicate SyncInv(threads: Threads) {
    && (forall i, t :: WaitsFor(threads, i, t) ==> i != t && i in threads && threads[i].syncBlocked)
    && (forall t :: t in threads ==> NoDuplicates(threads[t].dependencies))
    && (forall i, t, u :: WaitsFor(threads, i, t) && WaitsFor(threads, i, u) ==> t == u)
    && (forall i :: i in threads && threads[i].syncBlocked ==> exists t :: WaitsFor(threads, i, t))
  }

  /** The free ids are those of no live thread; 0 belongs to the main thread. */
  ghost predicate IdInv(threads: Threads, unused: set<int>) {
    && (forall i :: i in threads ==> InTable(i))
    && (forall i :: i in unused <==> 1 <= i < MAX_THREAD_NUM && i !in threads)
  }

  /** The quantums of the live threads with an id below `n`. */
  ghost function Quantums(threads: Threads, n: nat): nat {
    if n == 0 then 0
    else Quantums(threads, n - 1) + if n - 1 in threads then threads[n-1].quantums else 0
  }

  /** Every quantum started so far belongs to a live or to a terminated thread. */
  ghost predicate QuantumInv(s: State) {
    s.total == Quantums(s.threads, MAX_THREAD_NUM) + s.retired
  }

  ghost predicate Inv(s: State) {
    && s.status.Running?
    && IdInv(s.threads, s.unused)
    && ReadyInv(s.threads, s.ready, s.current)
    && SyncInv(s.threads)
    && QuantumInv(s)
  }

  /** Only the quantums and the direct blocks differ: ids and waiting lists are the same. */
  ghost predicate SameWaiting(threads: Threads, threads': Threads) {
    && threads.Keys == threads'.Keys
    && forall i :: i in threads ==>
         && threads'[i].syncBlocked == threads[i].syncBlocked
         && threads'[i].dependencies == threads[i].dependencies
  }

  lemma SyncFrame(threads: Threads, threads': Threads)
    requires SyncInv(threads) && SameWaiting(threads, threads')
    ensures SyncInv(threads')
  {
    assert forall i, t :: WaitsFor(threads', i, t) <==> WaitsFor(threads, i, t);
  }

  // ------------------------------------------------------------ quantums

  lemma {:induction false} QuantumsSame(threads: Threads, threads': Threads, n: nat)
    requires forall i :: 0 <= i < n ==> (i in threads <==> i in threads')
    requires forall i :: 0 <= i < n && i in threads ==> threads[i].quantums == threads'[i].quantums
    ensures Quantums(threads, n) == Quantums(threads', n)
  {
    if n > 0 {
      QuantumsSame(threads, threads', n - 1);
    }
  }

  lemma {:induction false} QuantumsUpdate(threads: Threads, i: int, info: Info, n: nat)
    requires 0 <= i < n
    ensures Quantums(threads[i := info], n) + (if i in threads then threads[i].quantums else 0)
         == Quantums(threads, n) + info.quantums
  {
    if i == n - 1 {
      QuantumsSame(threads, threads[i := info], n - 1);
    } else {
      QuantumsUpdate(threads, i, info, n - 1);
    }
  }

  lemma {:induction false} QuantumsRemove(threads: Threads, i: int, n: nat)
    requires 0 <= i < n && i in threads
    ensures Quantums(threads - {i}, n) + threads[i].quantums == Quantums(threads, n)
  {
    if i == n - 1 {
      QuantumsSame(threads, threads - {i}, n - 1);
    } else {
      QuantumsRemove(threads, i, n - 1);
    }
  }

  // ------------------------------------------------------------ switching

  /** Everything but the running thread is in order: what a switch finds. */
  ghost predicate BeforeDispatch(s: State) {
    && s.status.Running?
    && IdInv(s.threads, s.unused)
    && MAIN_THREAD_ID in s.threads && Runnable(s.threads[MAIN_THREAD_ID])
    && AllReady(s.threads, s.ready)
    && SyncInv(s.threads)
    && QuantumInv(s)
  }

  /** A switch always finds a live, runnable thread at the front of the deque, and leaves everything in order. */
  lemma DispatchKeeps(s: State)
    requires BeforeDispatch(s)
    ensures s.ready != [] && s.ready[0] in s.threads
    ensures Inv(Dispatch(s)) && Dispatch(s).current == s.ready[0] && Dispatch(s).total == s.total + 1
  {
    assert MAIN_THREAD_ID in s.ready;
    var i, s' := s.ready[0], Dispatch(s);
    assert i in s.ready;
    SyncFrame(s.threads, s'.threads);
    QuantumsUpdate(s.threads, i, s'.threads[i], MAX_THREAD_NUM);
    forall j ensures j in s'.ready <==> j in s.ready && j != i {
      assert s.ready == [i] + s'.ready;
    }
  }

  lemma TickKeeps(s: State)
    requires Inv(s)
    ensures Inv(ApplyTick(s))
  {
    DispatchKeeps(s.(ready := s.ready + [s.current]));
  }

  // ------------------------------------------------------------ spawn, block, resume, sync

  lemma SpawnKeeps(s: State)
    requires Inv(s)
    ensures Inv(ApplySpawn(s))
  {
    if s.unused != {} {
      var id, s' := Least(s.unused), ApplySpawn(s);
      QuantumsUpdate(s.threads, id, s'.threads[id], MAX_THREAD_NUM);
      assert forall i, t :: WaitsFor(s'.threads, i, t) <==> WaitsFor(s.threads, i, t);
    }
  }

  lemma BlockFrame(threads: Threads, tid: int, info: Info)
    requires tid in threads && SyncInv(threads)
    requires info.quantums == threads[tid].quantums && info.syncBlocked == threads[tid].syncBlocked
    requires info.dependencies == threads[tid].dependencies
    ensures SyncInv(threads[tid := info])
    ensures Quantums(threads[tid := info], MAX_THREAD_NUM) == Quantums(threads, MAX_THREAD_NUM)
  {
    SyncFrame(threads, threads[tid := info]);
    QuantumsSame(threads, threads[tid := info], MAX_THREAD_NUM);
  }

  lemma BlockKeeps(s: State, tid: int)
    requires Inv(s) && InTable(tid)
    ensures Inv(ApplyBlock(s, tid))
  {
    if tid in s.threads && tid != MAIN_THREAD_ID {
      var info := s.threads[tid].(blockedDirectly := true);
      BlockFrame(s.threads, tid, info);
      WithoutMembers(s.ready, tid);
      if s.current == tid {
        DispatchKeeps(s.(threads := s.threads[tid := info]));
      }
    }
  }

  lemma ResumeKeeps(s: State, tid: int)
    requires Inv(s) && InTable(tid)
    ensures Inv(ApplyResume(s, tid))
  {
    if tid in s.threads && s.threads[tid].blockedDirectly {
      BlockFrame(s.threads, tid, s.threads[tid].(blockedDirectly := false));
    }
  }

  /** The waiting relation after `i` starts to wait for `tid`. */
  function StartWaiting(threads: Threads, i: int, tid: int): Threads
    requires i in threads && tid in threads
  {
    var waiting := threads[i := threads[i].(syncBlocked := true)];
    waiting[tid := waiting[tid].(dependencies := waiting[tid].dependencies + [i])]
  }

  lemma StartWaitingKeeps(threads: Threads, i: int, tid: int)
    requires SyncInv(threads) && i in threads && tid in threads && i != tid && !threads[i].syncBlocked
    ensures SyncInv(StartWaiting(threads, i, tid))
    ensures Quantums(StartWaiting(threads, i, tid), MAX_THREAD_NUM) == Quantums(threads, MAX_THREAD_NUM)
  {
    var threads' := StartWaiting(threads, i, tid);
    forall j, t ensures WaitsFor(threads', j, t) <==> WaitsFor(threads, j, t) || (j == i && t == tid) {
    }
    assert forall t :: !WaitsFor(threads, i, t);
    forall j, t, u | WaitsFor(threads', j, t) && WaitsFor(threads', j, u) ensures t == u {
      assert j == i || (WaitsFor(threads, j, t) && WaitsFor(threads, j, u));
    }
    forall t | t in threads' ensures NoDuplicates(threads'[t].dependencies) {
      if t == tid {
        assert !WaitsFor(threads, i, t);
        NoDuplicatesConcat(threads[t].dependencies, [i]);
      }
    }
    forall j | j in threads' && threads'[j].syncBlocked ensures exists t :: WaitsFor(threads', j, t) {
      if j == i {
        assert WaitsFor(threads', i, tid);
      } else {
        var t :| WaitsFor(threads, j, t);
        assert WaitsFor(threads', j, t);
      }
    }
    QuantumsSame(threads, threads', MAX_THREAD_NUM);
  }

  lemma SyncKeeps(s: State, tid: int)
    requires Inv(s) && (InTable(tid) || s.current == MAIN_THREAD_ID)
    ensures Inv(ApplySync(s, tid))
  {
    var i := s.current;
    if tid in s.threads && i != MAIN_THREAD_ID && tid != i {
      StartWaitingKeeps(s.threads, i, tid);
      DispatchKeeps(s.(threads := StartWaiting(s.threads, i, tid)));
    }
  }

  // ------------------------------------------------------------ terminate

  /** The threads of `waiting` that are not blocked directly, in order. */
  function NotBlocked(threads: Threads, waiting: seq<int>): seq<int>
    requires forall i :: i in waiting ==> i in threads
  {
    if waiting == [] then []
    else
      var first := waiting[0];
      assert first in waiting;
      var rest := NotBlocked(threads, waiting[1..]);
      if threads[first].blockedDirectly then rest else [first] + rest
  }

  lemma {:induction false} NotBlockedMembers(threads: Threads, waiting: seq<int>)
    requires (forall i :: i in waiting ==> i in threads) && NoDuplicates(waiting)
    ensures NoDuplicates(NotBlocked(threads, waiting))
    ensures forall i :: i in NotBlocked(threads, waiting) <==> i in waiting && !threads[i].blockedDirectly
  {
    if waiting != [] {
      NotBlockedMembers(threads, waiting[1..]);
      assert waiting == [waiting[0]] + waiting[1..];
      assert waiting[0] !in waiting[1..];
    }
  }

  /** All threads of `waiting` no longer wait. */
  function StopWaiting(threads: Threads, waiting: seq<int>): Threads {
    map i | i in threads :: if i in waiting then threads[i].(syncBlocked := false) else threads[i]
  }

  /** The release loop clears the flag of every waiting thread and appends to the ready list exactly those that are
      not blocked directly, in list order. */
  lemma {:induction false} ReleaseIs(threads: Threads, ready: seq<int>, waiting: seq<int>)
    requires forall i :: i in waiting ==> i in threads
    ensures ReleaseAll(threads, ready, waiting)
         == Release(StopWaiting(threads, waiting), ready + NotBlocked(threads, waiting))
    decreases |waiting|
  {
    if waiting == [] {
      assert StopWaiting(threads, waiting) == threads;
    } else {
      var i := waiting[0];
      var threads' := threads[i := threads[i].(syncBlocked := false)];
      var ready' := if threads[i].blockedDirectly then ready else ready + [i];
      ReleaseIs(threads', ready', waiting[1..]);
      assert waiting == [i] + waiting[1..];
      assert StopWaiting(threads', waiting[1..]) == StopWaiting(threads, waiting);
      NotBlockedFrame(threads, threads', waiting[1..]);
      assert (ready + [i]) + NotBlocked(threads, waiting[1..]) == ready + ([i] + NotBlocked(threads, waiting[1..]));
    }
  }

  lemma {:induction false} NotBlockedFrame(threads: Threads, threads': Threads, waiting: seq<int>)
    requires forall i :: i in waiting ==> i in threads && i in threads'
    requires forall i :: i in waiting ==> threads[i].blockedDirectly == threads'[i].blockedDirectly
    ensures NotBlocked(threads, waiting) == NotBlocked(threads', waiting)
  {
    if waiting != [] {
      var first := waiting[0];
      assert first in waiting;
      NotBlockedFrame(threads, threads', waiting[1..]);
    }
  }

  /** The threads that remain when `tid` is gone and nobody waits for it any more. */
  function Survivors(threads: Threads, tid: int): Threads
    requires tid in threads
  {
    StopWaiting(threads, threads[tid].dependencies) - {tid}
  }

  lemma SurvivorsWait(threads: Threads, tid: int, i: int, t: int)
    requires tid in threads
    ensures WaitsFor(Survivors(threads, tid), i, t) <==> WaitsFor(threads, i, t) && t != tid
  {
  }

  lemma SurvivorsKeep(threads: Threads, tid: int)
    requires SyncInv(threads) && tid in threads && !threads[tid].syncBlocked
    ensures SyncInv(Survivors(threads, tid))
  {
    var rest := Survivors(threads, tid);
    forall i, t ensures WaitsFor(rest, i, t) <==> WaitsFor(threads, i, t) && t != tid {
      SurvivorsWait(threads, tid, i, t);
    }
    forall i, t | WaitsFor(rest, i, t) ensures i != t && i in rest && rest[i].syncBlocked {
      assert WaitsFor(threads, i, t);
      if i in threads[tid].dependencies {
        assert WaitsFor(threads, i, tid);
      }
    }
    forall i | i in rest && rest[i].syncBlocked ensures exists t :: WaitsFor(rest, i, t) {
      var t :| WaitsFor(threads, i, t);
      assert t != tid && WaitsFor(rest, i, t);
    }
  }

  lemma SurvivorsQuantums(threads: Threads, tid: int)
    requires tid in threads && InTable(tid)
    ensures Quantums(Survivors(threads, tid), MAX_THREAD_NUM) + threads[tid].quantums
         == Quantums(threads, MAX_THREAD_NUM)
  {
    var stopped := StopWaiting(threads, threads[tid].dependencies);
    QuantumsSame(threads, stopped, MAX_THREAD_NUM);
    QuantumsRemove(stopped, tid, MAX_THREAD_NUM);
  }

  /** The state in which a terminated thread leaves the others. */
  ghost function AfterTerminate(s: State, tid: int): State
    requires Inv(s) && tid in s.threads
  {
    var waiting := s.threads[tid].dependencies;
    WaitersLive(s, tid);
    s.(unused := s.unused + {tid}, threads := Survivors(s.threads, tid),
       ready := Without(s.ready, tid) + NotBlocked(s.threads, waiting),
       retired := s.retired + s.threads[tid].quantums)
  }

  lemma WaitersLive(s: State, tid: int)
    requires Inv(s) && tid in s.threads
    ensures forall i :: i in s.threads[tid].dependencies ==> i in s.threads && s.threads[i].syncBlocked && i != tid
  {
    forall i | i in s.threads[tid].dependencies ensures i in s.threads && s.threads[i].syncBlocked && i != tid {
      assert WaitsFor(s.threads, i, tid);
    }
  }

  /** Terminating `t` drops it from the ready list and appends exactly its waiters that are not blocked directly, in
      list order; if `t` was running, the front of the list runs next. */
  lemma TerminateIs(s: State, tid: int)
    requires Inv(s) && tid in s.threads && tid != MAIN_THREAD_ID
    ensures ApplyTerminate(s, tid) ==
            if s.current == tid then Dispatch(AfterTerminate(s, tid)) else AfterTerminate(s, tid)
  {
    WaitersLive(s, tid);
    ReleaseIs(s.threads, Without(s.ready, tid), s.threads[tid].dependencies);
  }

  lemma TerminateReady(s: State, tid: int)
    requires Inv(s) && tid in s.threads && tid != MAIN_THREAD_ID
    ensures NoDuplicates(AfterTerminate(s, tid).ready)
    ensures forall i :: i in AfterTerminate(s, tid).ready <==>
                        i in AfterTerminate(s, tid).threads && i != s.current && Runnable(AfterTerminate(s, tid).threads[i])
  {
    var waiting := s.threads[tid].dependencies;
    WaitersLive(s, tid);
    WithoutMembers(s.ready, tid);
    NotBlockedMembers(s.threads, waiting);
    var a, b := Without(s.ready, tid), NotBlocked(s.threads, waiting);
    forall i | i in b ensures i !in a {
      assert i in waiting && s.threads[i].syncBlocked;
    }
    NoDuplicatesConcat(a, b);
  }

  lemma TerminateKeeps(s: State, tid: int)
    requires Inv(s) && tid in s.threads && tid != MAIN_THREAD_ID && !s.threads[tid].syncBlocked
    ensures Inv(ApplyTerminate(s, tid))
  {
    var s' := AfterTerminate(s, tid);
    TerminateIs(s, tid);
    TerminateReady(s, tid);
    SurvivorsKeep(s.threads, tid);
    SurvivorsQuantums(s.threads, tid);
    WaitersLive(s, tid);
    if s.current == tid {
      DispatchKeeps(s');
    } else {
      assert s.current !in s.threads[tid].dependencies;
      assert MAIN_THREAD_ID !in s.threads[tid].dependencies;
    }
  }

  /** A victim that itself waits stays behind in the list of the thread it waits for. */
  lemma TerminatedWaiterDangles(s: State, tid: int)
    requires Inv(s) && tid in s.threads && s.threads[tid].syncBlocked
    ensures !Inv(ApplyTerminate(s, tid)) && !ApplyTerminate(s, tid).status.Exited?
  {
    TerminateIs(s, tid);
    var s' := AfterTerminate(s, tid);
    var t :| WaitsFor(s.threads, tid, t);
    SurvivorsWait(s.threads, tid, tid, t);
    assert WaitsFor(s'.threads, tid, t) && tid !in s'.threads;
  }

  // ------------------------------------------------------------ every call

  /** The calls that corrupt the library: terminating a thread that waits for another one, and naming a thread
      outside the table. */
  predicate Faulty(s: State, e: Event) {
    match e
    case Terminate(tid) =>
      !InTable(tid) || (tid in s.threads && tid != MAIN_THREAD_ID && s.threads[tid].syncBlocked)
    case Block(tid) => !InTable(tid)
    case Resume(tid) => !InTable(tid)
    case Sync(tid) => !InTable(tid) && s.current != MAIN_THREAD_ID
    case _ => false
  }

  /** Everything is in order, or the process has ended on request. */
  ghost predicate Sound(s: State) {
    Inv(s) || s.status.Exited?
  }

  /** A call or tick leaves everything in order exactly if it is not one of the faulty ones. */
  lemma KeptIff(s: State, e: Event)
    requires Inv(s)
    ensures Sound(Apply(s, e)) <==> !Faulty(s, e)
    ensures Apply(s, e).status.Exited? <==> e == Terminate(MAIN_THREAD_ID)
  {
    match e {
      case Tick => TickKeeps(s);
      case Spawn => SpawnKeeps(s);
      case Block(tid) => if !Faulty(s, e) { BlockKeeps(s, tid); }
      case Resume(tid) => if !Faulty(s, e) { ResumeKeeps(s, tid); }
      case Sync(tid) => if !Faulty(s, e) { SyncKeeps(s, tid); }
      case Terminate(tid) =>
        if tid in s.threads && tid != MAIN_THREAD_ID {
          if s.threads[tid].syncBlocked {
            TerminatedWaiterDangles(s, tid);
          } else {
            TerminateKeeps(s, tid);
          }
        }
    }
  }

  lemma InitialInv()
    ensures Inv(Initial())
  {
    var s := Initial();
    QuantumsOfMain(s.threads, MAX_THREAD_NUM);
    assert forall i, t :: !WaitsFor(s.threads, i, t);
  }

  lemma {:induction false} QuantumsOfMain(threads: Threads, n: nat)
    requires threads.Keys == {MAIN_THREAD_ID}
    ensures Quantums(threads, n) == if n == 0 then 0 else threads[MAIN_THREAD_ID].quantums
  {
    if n > 0 {
      QuantumsOfMain(threads, n - 1);
    }
  }
}
