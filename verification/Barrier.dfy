/** The reusable counting barrier: its counter, and any number of threads that pass it round after round. */
module Barrier {
  import opened Sums

  /** The arrival that finds `count` others already there, out of `n`, opens the barrier. */
  predicate Opens(count: nat, n: nat) {
    count + 1 >= n
  }

  function CountAfter(count: nat, n: nat): nat {
    if Opens(count, n) then 0 else count + 1
  }

  class Barrier {
    const numThreads: nat
    var count: nat

    constructor (numThreads: nat)
      ensures this.numThreads == numThreads && count == 0
    {
      this.numThreads := numThreads;
      count := 0;
    }

    /** The locked part of `barrier()` up to the wait or the broadcast: the caller waits unless `opens`. */
    method Enter() returns (opens: bool)
      modifies this
      ensures opens == Opens(old(count), numThreads) && count == CountAfter(old(count), numThreads)
    {
      count := count + 1;
      if count < numThreads {
        opens := false;
      } else {
        count := 0;
        opens := true;
      }
    }
  }

  // ------------------------------------------------------------ many threads, many rounds

  datatype Phase = Outside | InWait | Released

  /** A thread, and how many calls of `barrier()` it has completed. */
  datatype Member = Member(phase: Phase, rounds: nat)

  datatype State = State(
    count: nat,
    openings: nat,             // history: how often the barrier has opened
    members: seq<Member>)

  datatype Event =
    | Arrive(t: nat)         // lock, ++count, then wait or broadcast
    | Leave(t: nat)          // unlock and return
    | Wake(t: nat)           // pthread_cond_wait returns although nobody has signalled

  predicate Enabled(s: State, e: Event) {
    e.t < |s.members| &&
    match e
    case Arrive(t) => s.members[t].phase.Outside?
    case Leave(t) => s.members[t].phase.Released?
    case Wake(t) => s.members[t].phase.InWait?
  }

  function ReleaseAll(members: seq<Member>, t: nat): seq<Member> {
    seq(|members|, i requires 0 <= i < |members| =>
      if i == t || members[i].phase.InWait? then members[i].(phase := Released) else members[i])
  }

  function Apply(s: State, e: Event): State
    requires Enabled(s, e)
  {
    match e
    case Arrive(t) =>
      var count := CountAfter(s.count, |s.members|);
      if Opens(s.count, |s.members|) then State(count, s.openings + 1, ReleaseAll(s.members, t))
      else State(count, s.openings, s.members[t := s.members[t].(phase := InWait)])
    case Leave(t) => s.(members := s.members[t := Member(Outside, s.members[t].rounds + 1)])
    case Wake(t) => s.(members := s.members[t := s.members[t].(phase := Released)])
  }

  /** How often a member has arrived. */
  function Arrivals(m: Member): nat {
    if m.phase.Outside? then m.rounds else m.rounds + 1
  }

  /** No thread has completed a round in which some thread has not arrived. */
  ghost predicate NoEarlyLeave(s: State) {
    forall t, u :: 0 <= t < |s.members| && 0 <= u < |s.members| ==>
      s.members[t].rounds <= Arrivals(s.members[u])
  }

  ghost function Waits(m: Member): nat { if m.phase.InWait? then 1 else 0 }

  ghost predicate Inv(s: State) {
    && s.count == NSum(s.members, Waits) < |s.members|
    && forall t :: 0 <= t < |s.members| ==>
         var m := s.members[t];
         s.openings == if m.phase.Released? then m.rounds + 1 else m.rounds
  }

  function Initial(n: nat): State {
    State(0, 0, seq(n, _ => Member(Outside, 0)))
  }

  lemma InitialInv(n: nat)
    requires n >= 1
    ensures Inv(Initial(n))
  {
    NSumAll(Initial(n).members, Waits, 0);
  }

  /** Everyone but the last to arrive is waiting. */
  lemma LastArrival(s: State, t: nat)
    requires Inv(s) && Enabled(s, Arrive(t)) && Opens(s.count, |s.members|)
    ensures forall u :: 0 <= u < |s.members| && u != t ==> s.members[u].phase.InWait?
  {
    var w := Member(InWait, 0);
    NSumUpdate(s.members, t, w, Waits);
    NSumFull(s.members[t := w], Waits);
    forall u | 0 <= u < |s.members| && u != t ensures s.members[u].phase.InWait? {
      assert Waits(s.members[t := w][u]) == 1;
    }
  }

  /** The invariant survives a step exactly when the step is not a wakeup without a signal. */
  lemma InvKeptIff(s: State, e: Event)
    requires Inv(s) && Enabled(s, e)
    ensures Inv(Apply(s, e)) <==> !e.Wake?
  {
    var s' := Apply(s, e);
    match e {
      case Arrive(t) =>
        if Opens(s.count, |s.members|) {
          LastArrival(s, t);
          NSumAll(s'.members, Waits, 0);
        } else {
          NSumUpdate(s.members, t, s'.members[t], Waits);
        }
      case Leave(t) =>
        NSumUpdate(s.members, t, s'.members[t], Waits);
      case Wake(t) =>
        assert s'.members[t].phase.Released?;
    }
  }

  /** What the invariant means: nobody leaves a round early, nobody is more than one round ahead, and the count is
      the number of arrivals in the open round, which somebody has not reached yet. */
  lemma InvMeans(s: State)
    requires Inv(s)
    ensures NoEarlyLeave(s)
    ensures forall t, u :: 0 <= t < |s.members| && 0 <= u < |s.members| ==>
              s.members[t].rounds <= s.members[u].rounds + 1
    ensures forall t :: 0 <= t < |s.members| ==>
              (s.members[t].phase.InWait? <==> Arrivals(s.members[t]) == s.openings + 1)
    ensures s.count == NSum(s.members, Waits)
    ensures exists u :: 0 <= u < |s.members| && Arrivals(s.members[u]) == s.openings
  {
    if forall u :: 0 <= u < |s.members| ==> Arrivals(s.members[u]) != s.openings {
      forall u | 0 <= u < |s.members| ensures Waits(s.members[u]) == 1 {
        assert Arrivals(s.members[u]) != s.openings;
      }
      NSumAll(s.members, Waits, 1);
    }
  }

  /** The state after a sequence of events; events that are not possible are ignored. */
  function Exec(s: State, es: seq<Event>): State
    decreases |es|
  {
    if es == [] then s
    else if Enabled(s, es[0]) then Exec(Apply(s, es[0]), es[1..])
    else Exec(s, es[1..])
  }

  ghost predicate NoWakes(es: seq<Event>) {
    forall i :: 0 <= i < |es| ==> !es[i].Wake?
  }

  lemma {:induction false} ExecKeepsInv(s: State, es: seq<Event>)
    requires Inv(s) && NoWakes(es)
    ensures Inv(Exec(s, es))
    decreases |es|
  {
    if es != [] {
      if Enabled(s, es[0]) {
        InvKeptIff(s, es[0]);
        ExecKeepsInv(Apply(s, es[0]), es[1..]);
      } else {
        ExecKeepsInv(s, es[1..]);
      }
    }
  }

  /** Over any number of rounds, without spurious wakeups, no thread leaves a round before all have arrived in it
      and no thread gets more than one round ahead. */
  lemma RoundsAreSafe(n: nat, es: seq<Event>)
    requires n >= 1 && NoWakes(es)
    ensures var s := Exec(Initial(n), es);
            && NoEarlyLeave(s)
            && (forall t, u :: 0 <= t < |s.members| && 0 <= u < |s.members| ==>
                  s.members[t].rounds <= s.members[u].rounds + 1)
            && (forall t :: 0 <= t < |s.members| ==>
                  (s.members[t].phase.InWait? <==> Arrivals(s.members[t]) == s.openings + 1))
            && s.count == NSum(s.members, Waits)
  {
    InitialInv(n);
    ExecKeepsInv(Initial(n), es);
    InvMeans(Exec(Initial(n), es));
  }

  /** The `if` around the wait is not enough against a spurious wakeup: it lets the thread leave early. */
  lemma SpuriousWakeupLeavesEarly(s: State, t: nat)
    requires Inv(s) && Enabled(s, Wake(t))
    ensures Enabled(Apply(s, Wake(t)), Leave(t))
    ensures !NoEarlyLeave(Apply(Apply(s, Wake(t)), Leave(t)))
  {
    InvMeans(s);
    var u :| 0 <= u < |s.members| && Arrivals(s.members[u]) == s.openings;
    var s' := Apply(Apply(s, Wake(t)), Leave(t));
    assert s'.members[t].rounds == s.openings + 1 && Arrivals(s'.members[u]) == s.openings;
  }

  /** A step is followed by an early leave in some continuation, even one without any further wakeup, if and only if it
      is itself a wakeup without a signal. */
  lemma SafeForeverIff(s: State, e: Event)
    requires Inv(s) && Enabled(s, e)
    ensures (forall es :: NoWakes(es) ==> NoEarlyLeave(Exec(Apply(s, e), es))) <==> !e.Wake?
  {
    InvKeptIff(s, e);
    if e.Wake? {
      SpuriousWakeupLeavesEarly(s, e.t);
      var es := [Leave(e.t)];
      assert NoWakes(es) && Exec(Apply(s, e), es) == Apply(Apply(s, e), Leave(e.t));
    } else {
      forall es | NoWakes(es) ensures NoEarlyLeave(Exec(Apply(s, e), es)) {
        ExecKeepsInv(Apply(s, e), es);
        InvMeans(Exec(Apply(s, e), es));
      }
    }
  }

  /** The barrier never blocks everyone: some thread can arrive or leave. */
  lemma SomeoneCanMove(s: State)
    requires Inv(s)
    ensures exists t: nat :: Enabled(s, Arrive(t)) || Enabled(s, Leave(t))
  {
    InvMeans(s);
    var u :| 0 <= u < |s.members| && Arrivals(s.members[u]) == s.openings;
    assert Enabled(s, Arrive(u)) || Enabled(s, Leave(u));
  }
}
