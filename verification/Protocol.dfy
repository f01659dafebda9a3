/** The MapReduce engine as a transition system: any number of threads, one program counter each, and one step per
    operation on shared data. A step is a function of the state and of the thread that takes it, so a run is given
    by the order in which threads take their steps. */
module Protocol {
  import opened Keys
  import opened Sums
  import opened Shuffle
  import Barrier

  /** One call of `runMapReduceFramework`: the client, the two calls of `std::sort`, the input and the number of
      threads. */
  datatype Job = Job(
    less: Less,
    mapper: Pair -> Vec,           // everything one call of the client's map emits, in order
    reducer: Vec -> seq<Pair>,     // everything one call of the client's reduce emits, in order
    sortPairs: Vec -> Vec,
    sortVectors: Sorter,
    inputs: seq<Pair>,
    threads: nat)

  ghost predicate ValidJob(job: Job) {
    && job.threads >= 1
    && StrictWeakOrder(job.less)
    && Permutes(job.sortVectors)
    && forall v: Vec :: multiset(job.sortPairs(v)) == multiset(v) && KeySorted(job.less, job.sortPairs(v))
  }

  /** Where a thread stands; each value names the operation it does next. */
  datatype PC =
    | Claiming                            // fetch-and-add on inputVectorIndex
    | Mapping(rest: Vec)                  // inside map: the emissions still to come
    | Sorting                             // sort the private vector
    | Arriving                            // barrier: lock and ++count
    | Waiting                             // barrier: inside pthread_cond_wait
    | Leaving                             // barrier: past it, about to unlock and return
    | Erasing                             // shuffle: read the number of vectors, erase the empty ones
    | Looping(posts: nat)                 // shuffle: test of the outer loop and, if it goes on, one round
    | Pushing(posts: nat, group: Vec)     // shuffle: push under the lock
    | Posting(posts: nat)                 // shuffle: sem_post for the pushed group
    | Closing(posts: nat)                 // shuffle: isShuffleDone = true
    | Poisoning(posts: nat, i: nat)       // shuffle: the final sem_posts
    | Acquiring                           // reduce: sem_wait
    | Popping                             // reduce: inspect and pop under the lock
    | Checking                            // reduce: the queue was empty, read isShuffleDone
    | Reducing(out: seq<Pair>)            // inside reduce: the emissions still to come
    | ReducingNull                        // inside reduce(nullptr)
    | Returned

  /** The shared data and, behind them, what has happened so far. */
  datatype State = State(
    next: nat,               // inputVectorIndex
    vectors: seq<Vec>,       // intermediateVectors
    count: nat,              // the barrier's count
    queue: seq<Vec>,         // shuffleVectors
    semaphore: nat,
    done: bool,              // isShuffleDone
    output: seq<Pair>,       // outputVec
    pcs: seq<PC>,
    // history
    claims: seq<nat>,        // the thread that claimed each input
    atOpen: seq<Vec>,        // the vectors when the shuffle began
    pushed: seq<Vec>,        // every group ever pushed
    popped: seq<Vec>,        // every group ever popped
    workPosts: nat,          // sem_posts that follow a push
    poisonPosts: nat)        // sem_posts after the shuffle

  function Initial(job: Job): State {
    State(0, seq(job.threads, _ => []), 0, [], 0, false, [], seq(job.threads, _ => Claiming),
          [], [], [], [], 0, 0)
  }

  /** The thread can take a step. A thread inside `reduce(nullptr)` never can. */
  predicate Enabled(s: State, t: nat) {
    && t < |s.pcs|
    && !s.pcs[t].Waiting? && !s.pcs[t].Returned? && !s.pcs[t].ReducingNull?
    && (s.pcs[t].Acquiring? ==> s.semaphore > 0)
  }

  /** The step reads and writes inside the bounds of its vectors. */
  predicate Defined(s: State, t: nat)
    requires t < |s.pcs|
  {
    && (s.pcs[t].Mapping? || s.pcs[t].Sorting? ==> t < |s.vectors|)
    && (s.pcs[t].Looping? ==> AllNonEmpty(s.vectors))
  }

  /** Everyone who waits at the barrier, and thread `t`, is let through. */
  function Broadcast(pcs: seq<PC>, t: nat): seq<PC> {
    seq(|pcs|, i requires 0 <= i < |pcs| => if i == t || pcs[i].Waiting? then Leaving else pcs[i])
  }

  function Step(job: Job, s: State, t: nat): State
    requires ValidJob(job) && Enabled(s, t) && Defined(s, t)
  {
    match s.pcs[t]
    case Claiming =>
      if s.next < |job.inputs|
      then s.(next := s.next + 1, claims := s.claims + [t], pcs := s.pcs[t := Mapping(job.mapper(job.inputs[s.next]))])
      else s.(next := s.next + 1, pcs := s.pcs[t := Sorting])
    case Mapping(rest) =>
      if rest == [] then s.(pcs := s.pcs[t := Claiming])
      else s.(vectors := s.vectors[t := s.vectors[t] + [rest[0]]], pcs := s.pcs[t := Mapping(rest[1..])])
    case Sorting =>
      s.(vectors := s.vectors[t := job.sortPairs(s.vectors[t])], pcs := s.pcs[t := Arriving])
    case Arriving =>
      var count := Barrier.CountAfter(s.count, job.threads);
      s.(count := count, pcs := if Barrier.Opens(s.count, job.threads) then Broadcast(s.pcs, t) else s.pcs[t := Waiting])
    case Leaving =>
      s.(pcs := s.pcs[t := if t == 0 then Erasing else Acquiring])
    case Erasing =>
      s.(vectors := NonEmpty(s.vectors), atOpen := s.vectors, pcs := s.pcs[t := Looping(|s.vectors|)])
    case Looping(posts) =>
      if s.vectors == [] then s.(pcs := s.pcs[t := Closing(posts)])
      else
        var ord := Sorted(job.sortVectors, s.vectors);
        s.(vectors := Rest(job.less, ord), pcs := s.pcs[t := Pushing(posts, Group(job.less, ord))])
    case Pushing(posts, group) =>
      s.(queue := s.queue + [group], pushed := s.pushed + [group], pcs := s.pcs[t := Posting(posts)])
    case Posting(posts) =>
      s.(semaphore := s.semaphore + 1, workPosts := s.workPosts + 1, pcs := s.pcs[t := Looping(posts)])
    case Closing(posts) =>
      s.(done := true, pcs := s.pcs[t := Poisoning(posts, 0)])
    case Poisoning(posts, i) =>
      if i < posts
      then s.(semaphore := s.semaphore + 1, poisonPosts := s.poisonPosts + 1, pcs := s.pcs[t := Poisoning(posts, i + 1)])
      else s.(pcs := s.pcs[t := Acquiring])
    case Acquiring =>
      s.(semaphore := s.semaphore - 1, pcs := s.pcs[t := Popping])
    case Popping =>
      if s.queue == [] then s.(pcs := s.pcs[t := Checking])
      else
        var last := s.queue[|s.queue|-1];
        s.(queue := s.queue[..|s.queue|-1], popped := s.popped + [last], pcs := s.pcs[t := Reducing(job.reducer(last))])
    case Checking =>
      s.(pcs := s.pcs[t := if s.done then Returned else ReducingNull])
    case Reducing(out) =>
      if out == [] then s.(pcs := s.pcs[t := Acquiring])
      else s.(output := s.output + [out[0]], pcs := s.pcs[t := Reducing(out[1..])])
  }

  predicate AllReturned(s: State) {
    forall t :: 0 <= t < |s.pcs| ==> s.pcs[t].Returned?
  }
}
