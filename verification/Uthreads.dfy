/** The user-level thread library as a state machine: the ready list, the running thread, the block flags and waiting
    lists of all threads, the free ids and the quantum counters, changed by one library call or timer tick at a time. */
module Uthreads {

  const MAX_THREAD_NUM: int := 100
  const MAIN_THREAD_ID: int := 0

  /** A thread object. */
  datatype Info = Info(
    blockedDirectly: bool,       // blocked by uthread_block
    syncBlocked: bool,           // waits for another thread to terminate
    quantums: nat,
    dependencies: seq<int>)      // the threads that wait for this one

  datatype Status =
    | Running
    | Exited                     // exit(0)
    | Undefined                  // a null or out-of-bounds entry of uthreads was used, or an empty deque popped

  datatype State = State(
    threads: map<int, Info>,     // the non-null entries of uthreads
    ready: seq<int>,
    current: int,
    total: nat,                  // total_quantums
    unused: set<int>,            // unused_ids
    retired: nat,                // history: the quantums of all terminated threads
    status: Status)

  datatype Event =
    | Tick                       // the quantum of the running thread is over
    | Spawn
    | Terminate(tid: int)
    | Block(tid: int)
    | Resume(tid: int)
    | Sync(tid: int)

  /** `id` is an index of the thread table. */
  predicate InTable(id: int) {
    0 <= id < MAX_THREAD_NUM
  }

  /** The ids the constructor of `unique_id` inserts. */
  function InitialIds(): set<int> {
    set id | 1 <= id < MAX_THREAD_NUM && InTable(id)
  }

  /** After `uthread_init`. */
  function Initial(): State {
    State(map[MAIN_THREAD_ID := Info(false, false, 1, [])], [], MAIN_THREAD_ID, 1,
          InitialIds(), 0, Running)
  }

  // ------------------------------------------------------------ ids

  /** `is_used`; the comment in the source has the two results the wrong way round. */
  function IsUsed(unused: set<int>, id: int): int {
    if id !in unused then 1 else 0
  }

  /** `is_valid`, inverted as well. */
  function IsValid(unused: set<int>, id: int): int {
    if InTable(id) && IsUsed(unused, id) == 0 then 0 else 1
  }

  /** The test `!tids.is_valid(tid)` at the head of the library calls. */
  predicate Rejects(s: State, tid: int) {
    IsValid(s.unused, tid) == 0
  }

  lemma LeastExists(ids: set<int>)
    requires ids != {}
    ensures exists x :: x in ids && forall y :: y in ids ==> x <= y
    decreases ids
  {
    if forall x :: x !in ids {
    }
    var x :| x in ids;
    if ids != {x} {
      var rest := ids - {x};
      LeastExists(rest);
      var y :| y in rest && forall z :: z in rest ==> y <= z;
      var least := if x <= y then x else y;
      assert forall z :: z in ids ==> z == x || z in rest;
      assert least in ids && forall z :: z in ids ==> least <= z;
    }
  }

  /** `*unused_ids.begin()`. */
  function Least(ids: set<int>): (x: int)
    requires ids != {}
    ensures x in ids && forall y :: y in ids ==> x <= y
  {
    LeastExists(ids);
    var x :| x in ids && forall y :: y in ids ==> x <= y;
    x
  }

  // ------------------------------------------------------------ the ready list

  /** `ready.erase(std::remove(..., tid), ...)`. */
  function Without(ids: seq<int>, tid: int): seq<int> {
    if ids == [] then []
    else
      var init, last := Without(ids[..|ids|-1], tid), ids[|ids|-1];
      if last == tid then init else init + [last]
  }

  /** `switch_threads` from the point where the old thread is dealt with: the front of the deque runs. */
  function Dispatch(s: State): State {
    if s.ready == [] || s.ready[0] !in s.threads then s.(status := Undefined)
    else
      var i := s.ready[0];
      s.(current := i, ready := s.ready[1..], total := s.total + 1,
         threads := s.threads[i := s.threads[i].(quantums := s.threads[i].quantums + 1)])
  }

  datatype Release = Release(threads: map<int, Info>, ready: seq<int>) | Dangling

  /** The loop of `uthread_terminate` over the threads that wait for the victim. */
  function ReleaseAll(threads: map<int, Info>, ready: seq<int>, waiting: seq<int>): Release
    decreases |waiting|
  {
    if waiting == [] then Release(threads, ready)
    else if waiting[0] !in threads then Dangling
    else
      var i := waiting[0];
      ReleaseAll(threads[i := threads[i].(syncBlocked := false)],
                 if threads[i].blockedDirectly then ready else ready + [i],
                 waiting[1..])
  }

  // ------------------------------------------------------------ the calls

  function ApplyTick(s: State): State {
    Dispatch(s.(ready := s.ready + [s.current]))
  }

  function ApplySpawn(s: State): State {
    if s.unused == {} then s
    else
      var id := Least(s.unused);
      s.(unused := s.unused - {id}, threads := s.threads[id := Info(false, false, 0, [])], ready := s.ready + [id])
  }

  function ApplyTerminate(s: State, tid: int): State {
    if Rejects(s, tid) then s
    else if tid == MAIN_THREAD_ID then s.(status := Exited)
    else if tid !in s.threads then s.(status := Undefined)
    else
      match ReleaseAll(s.threads, Without(s.ready, tid), s.threads[tid].dependencies)
      case Dangling => s.(status := Undefined)
      case Release(threads, ready) =>
        var s' := s.(unused := s.unused + {tid}, threads := threads - {tid}, ready := ready,
                     retired := s.retired + s.threads[tid].quantums);
        if s.current == tid then Dispatch(s') else s'
  }

  function ApplyBlock(s: State, tid: int): State {
    if Rejects(s, tid) || tid == MAIN_THREAD_ID then s
    else if tid !in s.threads then s.(status := Undefined)
    else
      var blocked := s.threads[tid := s.threads[tid].(blockedDirectly := true)];
      if s.current == tid then Dispatch(s.(threads := blocked))
      else if !s.threads[tid].blockedDirectly then s.(threads := blocked, ready := Without(s.ready, tid))
      else s
  }

  function ApplyResume(s: State, tid: int): State {
    if Rejects(s, tid) || tid == MAIN_THREAD_ID || tid == s.current then s
    else if tid !in s.threads then s.(status := Undefined)
    else if s.threads[tid].blockedDirectly then
      s.(threads := s.threads[tid := s.threads[tid].(blockedDirectly := false)],
         ready := if s.threads[tid].syncBlocked then s.ready else s.ready + [tid])
    else s
  }

  function ApplySync(s: State, tid: int): State {
    var i := s.current;
    if Rejects(s, tid) || i == MAIN_THREAD_ID || tid == i then s
    else if i !in s.threads || tid !in s.threads then s.(status := Undefined)
    else
      var waiting := s.threads[i := s.threads[i].(syncBlocked := true)];
      Dispatch(s.(threads := waiting[tid := waiting[tid].(dependencies := waiting[tid].dependencies + [i])]))
  }

  /** The state after a library call by the running thread, or a timer tick. */
  function Apply(s: State, e: Event): State {
    if !s.status.Running? then s
    else
      match e
      case Tick => ApplyTick(s)
      case Spawn => ApplySpawn(s)
      case Terminate(tid) => ApplyTerminate(s, tid)
      case Block(tid) => ApplyBlock(s, tid)
      case Resume(tid) => ApplyResume(s, tid)
      case Sync(tid) => ApplySync(s, tid)
  }

  /** What the call returns, once its caller runs again. */
  function Code(s: State, e: Event): int {
    match e
    case Tick => 0
    case Spawn => if s.unused == {} then -1 else Least(s.unused)
    case Terminate(tid) => if Rejects(s, tid) then -1 else 0
    case Block(tid) => if Rejects(s, tid) || tid == MAIN_THREAD_ID then -1 else 0
    case Resume(tid) => if Rejects(s, tid) then -1 else 0
    case Sync(tid) => if Rejects(s, tid) || s.current == MAIN_THREAD_ID || tid == s.current then -1 else 0
  }

  // ------------------------------------------------------------ whole runs

  function Exec(s: State, es: seq<Event>): State
    decreases |es|
  {
    if es == [] then s else Exec(Apply(s, es[0]), es[1..])
  }

  lemma {:induction false} ExecConcat(s: State, es: seq<Event>, fs: seq<Event>)
    ensures Exec(s, es + fs) == Exec(Exec(s, es), fs)
    decreases |es|
  {
    if es == [] {
      assert es + fs == fs;
    } else {
      ExecConcat(Apply(s, es[0]), es[1..], fs);
      assert (es + fs)[1..] == es[1..] + fs;
    }
  }
}
