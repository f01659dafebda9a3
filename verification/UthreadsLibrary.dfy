/** The library itself: thread objects in a table, a set of free ids, the ready deque and the counters, all updated in
    place. Each call is proved to do what module Uthreads says. */
module UthreadsLibrary {
  import opened Uthreads

  class Thread {
    var blockedDirectly: bool
    var syncBlocked: bool
    var quantums: nat
    var syncDependencies: seq<int>

    constructor ()
      ensures View() == Info(false, false, 0, [])
    {
      blockedDirectly, syncBlocked, quantums, syncDependencies := false, false, 0, [];
    }

    ghost function View(): Info
      reads this
    {
      Info(blockedDirectly, syncBlocked, quantums, syncDependencies)
    }
  }

  class UniqueId {
    var unusedIds: set<int>

    constructor ()
      ensures unusedIds == InitialIds()
    {
      unusedIds := {};
      new;
      var i := 1;
      while i < MAX_THREAD_NUM
        invariant 1 <= i <= MAX_THREAD_NUM
        invariant forall id :: id in unusedIds <==> 1 <= id < i
      {
        unusedIds := unusedIds + {i};
        i := i + 1;
      }
    }

    /** Takes the least unused id, or reports -1. */
    method GenerateId() returns (id: int)
      modifies this
      ensures old(unusedIds) == {} ==> id == -1 && unusedIds == {}
      ensures old(unusedIds) != {} ==> id == Least(old(unusedIds)) && unusedIds == old(unusedIds) - {id}
    {
      if unusedIds == {} {
        return -1;
      }
      id := Least(unusedIds);
      unusedIds := unusedIds - {id};
    }

    method RemoveId(id: int)
      modifies this
      ensures unusedIds == old(unusedIds) + {id}
    {
      unusedIds := unusedIds + {id};
    }
  }

  /** Why a switch happens: the timer, the end of the running thread, or a block. */
  datatype Reason = Timer | TerminateSwitch | BlockSwitch

  /** What `switch_threads` does to the running thread before it picks the next one. */
  function Prepare(s: State, reason: Reason): State {
    match reason
    case Timer => s.(ready := s.ready + [s.current])
    case BlockSwitch => s
    case TerminateSwitch =>
      if s.current !in s.threads then s
      else s.(threads := s.threads - {s.current}, retired := s.retired + s.threads[s.current].quantums)
  }

  /** The same state; once behaviour is undefined only that is promised. */
  ghost predicate Agrees(s: State, t: State) {
    s.status == t.status && (!s.status.Undefined? ==> s == t)
  }

  lemma ReleaseStep(threads: map<int, Info>, ready: seq<int>, waiting: seq<int>, k: nat)
    requires k < |waiting|
    ensures var i := waiting[k];
            ReleaseAll(threads, ready, waiting[k..]) ==
            if i !in threads then Dangling
            else ReleaseAll(threads[i := threads[i].(syncBlocked := false)],
                            if threads[i].blockedDirectly then ready else ready + [i], waiting[k+1..])
  {
    assert waiting[k..][1..] == waiting[k+1..];
  }

  /** Releasing waiters neither adds nor removes threads nor touches their quantums. */
  lemma {:induction false} ReleaseKeepsQuantums(threads: map<int, Info>, ready: seq<int>, waiting: seq<int>)
    ensures var r := ReleaseAll(threads, ready, waiting);
            r.Release? ==> r.threads.Keys == threads.Keys
                           && forall i :: i in threads ==> r.threads[i].quantums == threads[i].quantums
    decreases |waiting|
  {
    if waiting != [] && waiting[0] in threads {
      var i := waiting[0];
      ReleaseKeepsQuantums(threads[i := threads[i].(syncBlocked := false)],
                           if threads[i].blockedDirectly then ready else ready + [i], waiting[1..]);
    }
  }

  class Library {
    const uthreads: array<Thread?>
    const tids: UniqueId
    var ready: seq<int>
    var currentThread: int
    var totalQuantums: nat
    var status: Status
    ghost var retired: nat

    /** Different ids have different thread objects, and the free ids are indices of the table. */
    ghost predicate Valid()
      reads this, uthreads, tids
    {
      && uthreads.Length == MAX_THREAD_NUM
      && (status.Running? ==> forall id :: id in tids.unusedIds ==> InTable(id))
      && forall i, j :: 0 <= i < j < uthreads.Length && uthreads[i] != null ==> uthreads[i] != uthreads[j]
    }

    ghost function Objects(): set<Thread?>
      reads uthreads
    {
      set i | 0 <= i < uthreads.Length :: uthreads[i]
    }

    ghost function Threads(): map<int, Info>
      reads uthreads, Objects()
    {
      map i | 0 <= i < uthreads.Length && uthreads[i] != null :: uthreads[i].View()
    }

    ghost function View(): State
      reads this, uthreads, tids, Objects()
    {
      State(Threads(), ready, currentThread, totalQuantums, tids.unusedIds, retired, status)
    }

    predicate Present(id: int)
      reads uthreads
    {
      0 <= id < uthreads.Length && uthreads[id] != null
    }

    /** The static data and a successful `uthread_init`. */
    constructor ()
      ensures Valid() && View() == Initial()
      ensures fresh(uthreads) && fresh(tids) && fresh(Objects() - {null})
    {
      uthreads := new Thread?[MAX_THREAD_NUM](_ => null);
      tids := new UniqueId();
      ready, currentThread, totalQuantums, status, retired := [], MAIN_THREAD_ID, 1, Running, 0;
      new;
      var main := new Thread();
      main.quantums := 1;
      uthreads[0] := main;
      assert Threads() == map[0 := Info(false, false, 1, [])];
    }

    predicate RejectsId(tid: int)
      reads tids
    {
      IsValid(tids.unusedIds, tid) == 0
    }

    /** What becomes of the running thread. */
    method Retire(reason: Reason)
      requires Valid() && status.Running?
      requires reason.TerminateSwitch? ==> Present(currentThread)
      modifies this`ready, this`retired, uthreads
      ensures Valid() && Objects() <= old(Objects()) + {null}
      ensures View() == Prepare(old(View()), reason)
    {
      match reason {
        case Timer => ready := ready + [currentThread];
        case TerminateSwitch => Delete(currentThread);
        case BlockSwitch =>
      }
    }

    method SwitchThreads(reason: Reason)
      requires Valid() && status.Running?
      requires reason.TerminateSwitch? ==> Present(currentThread)
      modifies this, uthreads, Objects()
      ensures Valid() && Objects() <= old(Objects()) + {null} && tids.unusedIds == old(tids.unusedIds)
      ensures View() == Dispatch(Prepare(old(View()), reason))
    {
      Retire(reason);
      RunNext();
    }

    /** The front of the deque becomes the running thread. */
    method RunNext()
      requires Valid()
      modifies this, Objects()
      ensures Valid() && uthreads[..] == old(uthreads[..])
      ensures View() == Dispatch(old(View()))
    {
      if ready == [] || !Present(ready[0]) {
        status := Undefined;
        return;
      }
      currentThread := ready[0];
      ready := ready[1..];
      ghost var info := Threads()[currentThread];
      uthreads[currentThread].quantums := uthreads[currentThread].quantums + 1;
      totalQuantums := totalQuantums + 1;
      assert Threads() == old(Threads())[currentThread := info.(quantums := info.quantums + 1)];
    }

    method Tick()
      requires Valid() && status.Running?
      modifies this, uthreads, Objects()
      ensures Valid() && Objects() <= old(Objects()) + {null}
      ensures View() == Apply(old(View()), Event.Tick)
    {
      SwitchThreads(Timer);
    }

    method Spawn() returns (code: int)
      requires Valid() && status.Running?
      modifies this, uthreads, tids
      ensures Valid() && fresh(Objects() - old(Objects()))
      ensures View() == Apply(old(View()), Event.Spawn) && code == Code(old(View()), Event.Spawn)
    {
      code := tids.GenerateId();
      if code == -1 {
        return;
      }
      var thread := new Thread();
      uthreads[code] := thread;
      ready := ready + [code];
      assert Threads() == old(Threads())[code := Info(false, false, 0, [])];
    }

    method SetBlocked(tid: int, value: bool)
      requires Valid() && Present(tid)
      modifies Objects()
      ensures Valid() && uthreads[..] == old(uthreads[..]) && Objects() == old(Objects())
      ensures View() == var s := old(View()); s.(threads := s.threads[tid := s.threads[tid].(blockedDirectly := value)])
    {
      ghost var info := Threads()[tid];
      uthreads[tid].blockedDirectly := value;
      assert Threads() == old(Threads())[tid := info.(blockedDirectly := value)];
    }

    method Block(tid: int) returns (code: int)
      requires Valid() && status.Running?
      modifies this, uthreads, Objects()
      ensures Valid() && Objects() <= old(Objects()) + {null}
      ensures View() == Apply(old(View()), Event.Block(tid)) && code == Code(old(View()), Event.Block(tid))
    {
      if RejectsId(tid) || tid == MAIN_THREAD_ID {
        return -1;
      }
      if !Present(tid) {
        status := Undefined;
        return 0;
      }
      if currentThread == tid {
        SetBlocked(tid, true);
        SwitchThreads(BlockSwitch);
      } else if !uthreads[tid].blockedDirectly {
        SetBlocked(tid, true);
        ready := Without(ready, tid);
      }
      return 0;
    }

    method Resume(tid: int) returns (code: int)
      requires Valid() && status.Running?
      modifies this, Objects()
      ensures Valid() && Objects() == old(Objects())
      ensures View() == Apply(old(View()), Event.Resume(tid)) && code == Code(old(View()), Event.Resume(tid))
    {
      if RejectsId(tid) {
        return -1;
      }
      if tid == MAIN_THREAD_ID || tid == currentThread {
        return 0;
      }
      if !Present(tid) {
        status := Undefined;
        return 0;
      }
      if uthreads[tid].blockedDirectly {
        SetBlocked(tid, false);
        assert Threads()[tid] == uthreads[tid].View() && View().threads == Threads();
        if !uthreads[tid].syncBlocked {
          ready := ready + [tid];
        }
      }
      return 0;
    }

    method Sync(tid: int) returns (code: int)
      requires Valid() && status.Running?
      modifies this, uthreads, Objects()
      ensures Valid() && Objects() <= old(Objects()) + {null}
      ensures View() == Apply(old(View()), Event.Sync(tid)) && code == Code(old(View()), Event.Sync(tid))
    {
      if RejectsId(tid) || currentThread == MAIN_THREAD_ID || tid == currentThread {
        return -1;
      }
      if !Present(currentThread) || !Present(tid) {
        status := Undefined;
        return 0;
      }
      ghost var caller, target := Threads()[currentThread], Threads()[tid];
      uthreads[currentThread].syncBlocked := true;
      uthreads[tid].syncDependencies := uthreads[tid].syncDependencies + [currentThread];
      assert Threads() == old(Threads())[currentThread := caller.(syncBlocked := true)]
                                        [tid := target.(dependencies := target.dependencies + [currentThread])];
      SwitchThreads(BlockSwitch);
      return 0;
    }

    method ReleaseOne(i: int)
      requires Valid() && Present(i)
      modifies this`ready, Objects()
      ensures Valid() && uthreads[..] == old(uthreads[..])
      ensures Threads() == old(Threads())[i := old(Threads())[i].(syncBlocked := false)]
      ensures ready == if old(Threads())[i].blockedDirectly then old(ready) else old(ready) + [i]
    {
      ghost var info := Threads()[i];
      uthreads[i].syncBlocked := false;
      if !uthreads[i].blockedDirectly {
        ready := ready + [i];
      }
      assert Threads() == old(Threads())[i := info.(syncBlocked := false)];
    }

    /** `delete uthreads[tid]; uthreads[tid] = nullptr`. */
    method Delete(tid: int)
      requires Valid() && Present(tid)
      modifies this`retired, uthreads
      ensures Valid() && Objects() <= old(Objects()) + {null}
      ensures Threads() == old(Threads()) - {tid} && retired == old(retired) + old(Threads())[tid].quantums
    {
      retired := retired + uthreads[tid].quantums;
      uthreads[tid] := null;
      assert Threads() == old(Threads()) - {tid};
    }

    /** The loop over the threads that wait for the victim. */
    method ReleaseWaiters(waiting: seq<int>) returns (ok: bool)
      requires Valid()
      modifies this`ready, Objects()
      ensures Valid() && Objects() == old(Objects()) && uthreads[..] == old(uthreads[..])
      ensures ok == !ReleaseAll(old(Threads()), old(ready), waiting).Dangling?
      ensures ok ==> ReleaseAll(old(Threads()), old(ready), waiting) == Release(Threads(), ready)
      ensures View() == old(View()).(threads := Threads(), ready := ready)
    {
      ghost var result := ReleaseAll(Threads(), ready, waiting);
      var k := 0;
      while k < |waiting|
        invariant 0 <= k <= |waiting|
        invariant Valid() && uthreads[..] == old(uthreads[..]) && Objects() == old(Objects())
        invariant ReleaseAll(Threads(), ready, waiting[k..]) == result
      {
        var i := waiting[k];
        ReleaseStep(Threads(), ready, waiting, k);
        if !Present(i) {
          return false;
        }
        ReleaseOne(i);
        k := k + 1;
      }
      return true;
    }

    method Terminate(tid: int) returns (code: int)
      requires Valid() && status.Running?
      modifies this, uthreads, tids, Objects()
      ensures Valid() && Objects() <= old(Objects()) + {null}
      ensures Agrees(View(), Apply(old(View()), Event.Terminate(tid)))
      ensures code == Code(old(View()), Event.Terminate(tid))
    {
      if RejectsId(tid) {
        return -1;
      }
      if tid == MAIN_THREAD_ID {
        status := Exited;
        return 0;
      }
      TerminateOther(tid);
      return 0;
    }

    /** Terminates a thread other than the main one. */
    method TerminateOther(tid: int)
      requires Valid() && status.Running? && !RejectsId(tid) && tid != MAIN_THREAD_ID
      modifies this, uthreads, tids, Objects()
      ensures Valid() && Objects() <= old(Objects()) + {null}
      ensures Agrees(View(), ApplyTerminate(old(View()), tid))
    {
      ghost var s := View();
      tids.RemoveId(tid);
      ready := Without(ready, tid);
      assert View() == s.(unused := s.unused + {tid}, ready := Without(s.ready, tid));
      if !Present(tid) {
        status := Undefined;
        return;
      }
      ReleaseAndRemove(tid);
    }

    method ReleaseAndRemove(tid: int)
      requires Valid() && status.Running? && Present(tid)
      modifies this, uthreads, Objects()
      ensures Valid() && Objects() <= old(Objects()) + {null}
      ensures var s := old(View());
              match ReleaseAll(s.threads, s.ready, s.threads[tid].dependencies)
              case Dangling => status.Undefined?
              case Release(threads, ready) =>
                var s' := s.(threads := threads - {tid}, ready := ready,
                             retired := s.retired + s.threads[tid].quantums);
                View() == if s.current == tid then Dispatch(s') else s'
    {
      ghost var s := View();
      assert s.threads == Threads() && s.threads[tid] == uthreads[tid].View();
      var ok := ReleaseWaiters(uthreads[tid].syncDependencies);
      if ok {
        ReleaseKeepsQuantums(s.threads, s.ready, s.threads[tid].dependencies);
        Remove(tid);
      } else {
        status := Undefined;
      }
    }

    /** The last part of `uthread_terminate`: deletes the thread, and switches if it was running. */
    method Remove(tid: int)
      requires Valid() && status.Running? && Present(tid)
      modifies this, uthreads, Objects()
      ensures Valid() && Objects() <= old(Objects()) + {null}
      ensures var s := old(View());
              var s' := s.(threads := s.threads - {tid}, retired := s.retired + s.threads[tid].quantums);
              View() == if s.current == tid then Dispatch(s') else s'
    {
      if currentThread == tid {
        SwitchThreads(TerminateSwitch);
      } else {
        Delete(tid);
      }
    }

    /** Any library call by the running thread, or a timer tick. */
    method Do(e: Event) returns (code: int)
      requires Valid() && status.Running?
      modifies this, uthreads, tids, Objects()
      ensures Valid() && fresh(Objects() - old(Objects()) - {null})
      ensures Agrees(View(), Apply(old(View()), e)) && code == Code(old(View()), e)
    {
      match e
      case Tick => Tick(); code := 0;
      case Spawn => code := Spawn();
      case Terminate(tid) => code := Terminate(tid);
      case Block(tid) => code := Block(tid);
      case Resume(tid) => code := Resume(tid);
      case Sync(tid) => code := Sync(tid);
    }
  }
}
