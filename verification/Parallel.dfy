/**
 The parallel map: one goroutine per item and a wait group, under every interleaving of their steps.
*/
module Parallel {
  import opened Types

  /** A worker calls the function, stores the result, and reports to the wait group. */
  datatype Worker<+R> = Ready | Computed(res: R) | Stored | Finished
  {
    function StepsLeft(): nat {
      match this
      case Ready => 3
      case Computed(_) => 2
      case Stored => 1
      case Finished => 0
    }
  }

  /** The caller has started the first `spawned` workers. A slot of the result is unset before it is written. */
  datatype State<+R> =
    State(workers: seq<Worker<R>>, result: seq<Option<R>>, spawned: nat, waiting: int,
          returned: Option<seq<Option<R>>>)

  datatype Actor = Caller | Goroutine(index: nat)

  function Initial<R>(n: nat): State<R> {
    State(seq(n, _ => Ready), seq(n, _ => None), 0, n, None)
  }

  predicate Enabled<R>(s: State<R>, actor: Actor) {
    match actor
    case Caller => s.returned.None? && (s.spawned < |s.workers| || s.waiting == 0)
    case Goroutine(i) => i < s.spawned && i < |s.workers| && !s.workers[i].Finished?
  }

  function Step<T, R>(items: seq<T>, f: (T, nat) -> R, s: State<R>, actor: Actor): State<R>
    requires |s.workers| == |s.result| == |items| && Enabled(s, actor)
  {
    match actor
    case Caller =>
      if s.spawned < |items| then s.(spawned := s.spawned + 1) else s.(returned := Some(s.result))
    case Goroutine(i) =>
      match s.workers[i]
      case Ready => s.(workers := s.workers[i := Computed(f(items[i], i))])
      case Computed(res) => s.(workers := s.workers[i := Stored], result := s.result[i := Some(res)])
      case Stored => s.(workers := s.workers[i := Finished], waiting := s.waiting - 1)
      case Finished => s
  }

  function Unfinished<R>(workers: seq<Worker<R>>): nat {
    if workers == [] then 0
    else Unfinished(workers[..|workers| - 1]) + if workers[|workers| - 1].Finished? then 0 else 1
  }

  function StepsLeft<R>(workers: seq<Worker<R>>): nat {
    if workers == [] then 0
    else StepsLeft(workers[..|workers| - 1]) + workers[|workers| - 1].StepsLeft()
  }

  /** All that is left to do, the caller's part included. */
  function Remaining<R>(s: State<R>): int {
    StepsLeft(s.workers) + (|s.workers| - s.spawned) + if s.returned.None? then 1 else 0
  }

  ghost predicate Inv<T, R>(items: seq<T>, f: (T, nat) -> R, s: State<R>) {
    && |s.workers| == |s.result| == |items|
    && s.spawned <= |items|
    && s.waiting == Unfinished(s.workers)
    && (forall i :: s.spawned <= i < |items| ==> s.workers[i].Ready?)
    && (forall i :: 0 <= i < |items| && s.workers[i].Computed? ==> s.workers[i].res == f(items[i], i))
    && (forall i :: 0 <= i < |items| && (s.workers[i].Stored? || s.workers[i].Finished?) ==>
         s.result[i] == Some(f(items[i], i)))
    && (s.returned.Some? ==> s.spawned == |items| && Unfinished(s.workers) == 0 && s.returned.value == s.result)
  }

  lemma {:induction false} WorkerMoves<R>(workers: seq<Worker<R>>, i: nat, worker: Worker<R>)
    requires i < |workers|
    ensures Unfinished(workers[i := worker])
         == Unfinished(workers) - (if workers[i].Finished? then 0 else 1) + (if worker.Finished? then 0 else 1)
    ensures StepsLeft(workers[i := worker]) == StepsLeft(workers) - workers[i].StepsLeft() + worker.StepsLeft()
  {
    var n := |workers| - 1;
    if i == n {
      assert workers[i := worker][..n] == workers[..n];
    } else {
      WorkerMoves(workers[..n], i, worker);
      assert workers[i := worker][..n] == workers[..n][i := worker];
    }
  }

  lemma {:induction false} AllFinished<R>(workers: seq<Worker<R>>)
    ensures Unfinished(workers) == 0 <==> forall i :: 0 <= i < |workers| ==> workers[i].Finished?
  {
    if workers != [] {
      AllFinished(workers[..|workers| - 1]);
      assert workers == workers[..|workers| - 1] + [workers[|workers| - 1]];
    }
  }

  lemma {:induction false} NothingDone<R>(workers: seq<Worker<R>>)
    requires forall i :: 0 <= i < |workers| ==> workers[i].Ready?
    ensures Unfinished(workers) == |workers| && StepsLeft(workers) == 3 * |workers|
  {
    if workers != [] {
      NothingDone(workers[..|workers| - 1]);
    }
  }

  lemma StepKeepsInv<T, R>(items: seq<T>, f: (T, nat) -> R, s: State<R>, actor: Actor)
    requires Inv(items, f, s) && Enabled(s, actor)
    ensures Inv(items, f, Step(items, f, s, actor))
    ensures Remaining(Step(items, f, s, actor)) == Remaining(s) - 1
  {
    match actor
    case Caller =>
    case Goroutine(i) =>
      AllFinished(s.workers);
      WorkerMoves(s.workers, i, Step(items, f, s, actor).workers[i]);
  }

  /** While the caller waits, somebody can move. */
  lemma NoDeadlock<T, R>(items: seq<T>, f: (T, nat) -> R, s: State<R>)
    requires Inv(items, f, s)
    ensures s.returned.None? <==> exists actor :: Enabled(s, actor)
  {
    AllFinished(s.workers);
    if s.returned.None? && !Enabled(s, Caller) {
      var i :| 0 <= i < |s.workers| && !s.workers[i].Finished?;
      assert Enabled(s, Goroutine(i));
    }
  }

  /** The interleaving runs: each actor can move when its turn comes. */
  predicate Runs<T, R>(items: seq<T>, f: (T, nat) -> R, s: State<R>, schedule: seq<Actor>)
    requires |s.workers| == |s.result| == |items|
    decreases schedule
  {
    schedule != [] ==> Enabled(s, schedule[0]) && Runs(items, f, Step(items, f, s, schedule[0]), schedule[1..])
  }

  function After<T, R>(items: seq<T>, f: (T, nat) -> R, s: State<R>, schedule: seq<Actor>): (s': State<R>)
    requires |s.workers| == |s.result| == |items| && Runs(items, f, s, schedule)
    decreases schedule
  {
    if schedule == [] then s else After(items, f, Step(items, f, s, schedule[0]), schedule[1..])
  }

  lemma {:induction false} RunKeepsInv<T, R>(items: seq<T>, f: (T, nat) -> R, s: State<R>, schedule: seq<Actor>)
    requires Inv(items, f, s) && Runs(items, f, s, schedule)
    ensures Inv(items, f, After(items, f, s, schedule))
    ensures Remaining(After(items, f, s, schedule)) == Remaining(s) - |schedule|
    decreases schedule
  {
    if schedule != [] {
      StepKeepsInv(items, f, s, schedule[0]);
      RunKeepsInv(items, f, Step(items, f, s, schedule[0]), schedule[1..]);
    }
  }

  lemma {:induction false} NothingLeft<R>(workers: seq<Worker<R>>)
    requires Unfinished(workers) == 0
    ensures StepsLeft(workers) == 0
  {
    if workers != [] {
      NothingLeft(workers[..|workers| - 1]);
    }
  }

  lemma WhenReturned<T, R>(items: seq<T>, f: (T, nat) -> R, s: State<R>)
    requires Inv(items, f, s)
    ensures Remaining(s) >= 0 && (s.returned.Some? <==> Remaining(s) == 0)
    ensures s.returned.Some? ==> forall worker | worker in s.workers :: worker.Finished?
    ensures s.returned.Some? ==> s.returned.value == seq(|items|, i requires 0 <= i < |items| => Some(f(items[i], i)))
  {
    AllFinished(s.workers);
    if s.returned.Some? {
      NothingLeft(s.workers);
    }
  }

  /**
   Under every interleaving the caller returns after four steps per item and one more, not sooner and not
   later; by then every worker has finished, and each slot holds the function's value at its item.
  */
  lemma ParallelMap<T, R>(items: seq<T>, f: (T, nat) -> R, schedule: seq<Actor>)
    requires Runs(items, f, Initial(|items|), schedule)
    ensures var s := After(items, f, Initial(|items|), schedule);
            && |schedule| <= 4 * |items| + 1
            && (s.returned.Some? <==> |schedule| == 4 * |items| + 1)
            && (s.returned.Some? ==>
                  && (forall worker | worker in s.workers :: worker.Finished?)
                  && s.returned.value == seq(|items|, i requires 0 <= i < |items| => Some(f(items[i], i))))
  {
    NothingDone(Initial<R>(|items|).workers);
    RunKeepsInv(items, f, Initial(|items|), schedule);
    WhenReturned(items, f, After(items, f, Initial(|items|), schedule));
  }
}
