/** ThreadPool of include/ids_thread_pool.hpp as a state machine. Callers of enqueue, the
    workers and the destructor interleave freely; the mutex makes each of the steps below
    atomic, and the condition variable is modelled down to its sleepers, its signals and its
    spurious wake-ups. */
module ThreadPool {
  type Task = nat

  datatype Worker =
    | Checking                      // evaluates the wait predicate under the lock
    | Asleep                        // blocked in the wait
    | Running(task: Task)
    | Exited

  /** The destructor: not begun, stop set but notify_all not yet called, joining worker i, done. */
  datatype Destructor = NotBegun | StopSet | Joining(i: nat) | Done

  /** `toNotify` counts the enqueue calls that released the lock and have not signalled yet.
      The last three fields are history: tasks in acceptance, dequeue and completion order. */
  datatype State = State(
    tasks: seq<Task>, stop: bool, workers: seq<Worker>, toNotify: nat, destructor: Destructor,
    accepted: seq<Task>, dequeued: seq<Task>, executed: seq<Task>)

  datatype Action =
    | Enqueue(task: Task)           // refused when the pool is stopped
    | NotifyOne(w: nat)             // wakes sleeper w; any w when nobody sleeps
    | Wake(w: nat)                  // a spurious wake-up
    | Step(w: nat)
    | Destroy

  function InitState(n: nat): State {
    State([], false, seq(n, i => Checking), 0, NotBegun, [], [], [])
  }

  predicate SomeAsleep(s: State) {
    exists w :: 0 <= w < |s.workers| && s.workers[w].Asleep?
  }

  predicate Enabled(s: State, a: Action) {
    match a
    case Enqueue(task) => true
    case NotifyOne(w) => s.toNotify > 0 && (SomeAsleep(s) ==> w < |s.workers| && s.workers[w].Asleep?)
    case Wake(w) => w < |s.workers| && s.workers[w].Asleep?
    case Step(w) => w < |s.workers| && (s.workers[w].Checking? || s.workers[w].Running?)
    case Destroy =>
      match s.destructor
      case Joining(i) => i < |s.workers| ==> s.workers[i].Exited?
      case Done => false
      case _ => true
  }

  function WorkerStep(s: State, w: nat): State
    requires w < |s.workers| && (s.workers[w].Checking? || s.workers[w].Running?)
  {
    if s.workers[w].Running? then
      s.(workers := s.workers[w := Checking], executed := s.executed + [s.workers[w].task])
    else if s.tasks != [] then
      s.(workers := s.workers[w := Running(s.tasks[0])], tasks := s.tasks[1..], dequeued := s.dequeued + [s.tasks[0]])
    else if s.stop then s.(workers := s.workers[w := Exited])
    else s.(workers := s.workers[w := Asleep])
  }

  function WakeAll(workers: seq<Worker>): (r: seq<Worker>)
    ensures |r| == |workers|
    ensures forall w :: 0 <= w < |r| ==> r[w] == if workers[w].Asleep? then Checking else workers[w]
  {
    seq(|workers|, w requires 0 <= w < |workers| => if workers[w].Asleep? then Checking else workers[w])
  }

  function Apply(s: State, a: Action): State
    requires Enabled(s, a)
  {
    match a
    case Enqueue(task) =>
      if s.stop then s
      else s.(tasks := s.tasks + [task], accepted := s.accepted + [task], toNotify := s.toNotify + 1)
    case NotifyOne(w) =>
      var s' := s.(toNotify := s.toNotify - 1);
      if SomeAsleep(s) then s'.(workers := s.workers[w := Checking]) else s'
    case Wake(w) => s.(workers := s.workers[w := Checking])
    case Step(w) => WorkerStep(s, w)
    case Destroy =>
      match s.destructor
      case NotBegun => s.(stop := true, destructor := StopSet)
      case StopSet => s.(workers := WakeAll(s.workers), destructor := Joining(0))
      case Joining(i) => s.(destructor := if i < |s.workers| then Joining(i + 1) else Done)
  }

  // ---- Invariant ----

  function Holds(w: Worker, x: Task): nat {
    if w.Running? && w.task == x then 1 else 0
  }

  /** How many workers are running x. */
  function Held(workers: seq<Worker>, x: Task): nat
    decreases |workers|
  {
    if workers == [] then 0 else Held(workers[..|workers| - 1], x) + Holds(workers[|workers| - 1], x)
  }

  ghost predicate Queue(s: State) {
    && s.dequeued + s.tasks == s.accepted
    && forall x :: multiset(s.dequeued)[x] == multiset(s.executed)[x] + Held(s.workers, x)
  }

  ghost predicate Liveness(s: State) {
    && (s.tasks != [] && s.workers != [] ==>
          s.toNotify > 0 || s.destructor.StopSet?
          || exists w :: 0 <= w < |s.workers| && (s.workers[w].Checking? || s.workers[w].Running?))
    && (forall w :: 0 <= w < |s.workers| && s.workers[w].Exited? ==> s.stop && s.tasks == [])
    && (s.stop <==> !s.destructor.NotBegun?)
    && (s.destructor.Joining? || s.destructor.Done? ==> !SomeAsleep(s))
    && (s.destructor.Joining? ==> forall w :: 0 <= w < s.destructor.i && w < |s.workers| ==> s.workers[w].Exited?)
    && (s.destructor.Joining? ==> s.destructor.i <= |s.workers|)
    && (s.destructor.Done? ==> forall w :: 0 <= w < |s.workers| ==> s.workers[w].Exited?)
  }

  ghost predicate Inv(n: nat, s: State) {
    |s.workers| == n && Queue(s) && Liveness(s)
  }

  lemma {:induction false} HeldUpdate(workers: seq<Worker>, w: nat, pc: Worker, x: Task)
    requires w < |workers|
    ensures Held(workers[w := pc], x) + Holds(workers[w], x) == Held(workers, x) + Holds(pc, x)
    decreases |workers|
  {
    var n := |workers| - 1;
    if w == n {
      assert workers[w := pc][..n] == workers[..n];
    } else {
      assert workers[w := pc][..n] == workers[..n][w := pc];
      HeldUpdate(workers[..n], w, pc, x);
    }
  }

  lemma {:induction false} HeldNone(workers: seq<Worker>, x: Task)
    requires forall w :: 0 <= w < |workers| ==> !workers[w].Running?
    ensures Held(workers, x) == 0
    decreases |workers|
  {
    if workers != [] {
      HeldNone(workers[..|workers| - 1], x);
    }
  }

  lemma {:induction false} HeldWoken(workers: seq<Worker>, x: Task)
    ensures Held(WakeAll(workers), x) == Held(workers, x)
    decreases |workers|
  {
    if workers != [] {
      HeldWoken(workers[..|workers| - 1], x);
      assert WakeAll(workers)[..|workers| - 1] == WakeAll(workers[..|workers| - 1]);
    }
  }

  lemma InitInv(n: nat)
    ensures Inv(n, InitState(n))
  {
    forall x ensures Held(InitState(n).workers, x) == 0 {
      HeldNone(InitState(n).workers, x);
    }
  }

  lemma StepQueueKept(s: State, w: nat)
    requires Queue(s) && Enabled(s, Step(w))
    ensures Queue(WorkerStep(s, w))
  {
    if s.workers[w].Checking? && s.tasks != [] {
      TakeKept(s, w);
    } else {
      NoTakeKept(s, w);
    }
  }

  lemma TakeKept(s: State, w: nat)
    requires Queue(s) && w < |s.workers| && s.workers[w].Checking? && s.tasks != []
    ensures Queue(WorkerStep(s, w))
  {
    hide Held;
    var s' := WorkerStep(s, w);
    assert s.tasks == [s.tasks[0]] + s.tasks[1..];
    assert s'.dequeued + s'.tasks == s.dequeued + s.tasks;
    forall x ensures multiset(s'.dequeued)[x] == multiset(s'.executed)[x] + Held(s'.workers, x) {
      HeldUpdate(s.workers, w, s'.workers[w], x);
    }
  }

  lemma NoTakeKept(s: State, w: nat)
    requires Queue(s) && Enabled(s, Step(w)) && (s.workers[w].Running? || s.tasks == [])
    ensures Queue(WorkerStep(s, w))
  {
    hide Held;
    var s' := WorkerStep(s, w);
    forall x ensures multiset(s'.dequeued)[x] == multiset(s'.executed)[x] + Held(s'.workers, x) {
      HeldUpdate(s.workers, w, s'.workers[w], x);
    }
  }

  /** Waking sleepers changes nothing in the workers' hands. */
  lemma WokenQueueKept(s: State, w: nat, s': State)
    requires Queue(s)
    requires w < |s.workers| && s.workers[w].Asleep? && s'.workers == s.workers[w := Checking]
    requires s'.dequeued == s.dequeued && s'.tasks == s.tasks && s'.accepted == s.accepted && s'.executed == s.executed
    ensures Queue(s')
  {
    hide Held;
    forall x ensures Held(s'.workers, x) == Held(s.workers, x) {
      HeldUpdate(s.workers, w, Checking, x);
    }
  }

  lemma QueueKept(s: State, a: Action)
    requires Queue(s) && Enabled(s, a)
    ensures Queue(Apply(s, a))
  {
    hide Held;
    match a
    case Enqueue(task) =>
      assert s.dequeued + (s.tasks + [task]) == (s.dequeued + s.tasks) + [task];
    case NotifyOne(w) =>
      if SomeAsleep(s) {
        WokenQueueKept(s, w, Apply(s, a));
      }
    case Wake(w) => WokenQueueKept(s, w, Apply(s, a));
    case Step(w) => StepQueueKept(s, w);
    case Destroy =>
      forall x ensures Held(WakeAll(s.workers), x) == Held(s.workers, x) {
        HeldWoken(s.workers, x);
      }
  }

  lemma LivenessKept(s: State, a: Action)
    requires Liveness(s) && Enabled(s, a)
    ensures Liveness(Apply(s, a))
  {
    var s' := Apply(s, a);
    match a
    case Enqueue(task) =>
    case NotifyOne(w) =>
      if s.tasks != [] && s.workers != [] {
        if SomeAsleep(s) {
          assert s'.workers[w].Checking?;
        } else {
          assert s'.workers[0].Checking? || s'.workers[0].Running?;
        }
      }
    case Wake(w) => assert s'.workers[w].Checking?;
    case Step(w) => assert s'.tasks != [] ==> s'.workers[w].Checking? || s'.workers[w].Running?;
    case Destroy =>
      if s.destructor.StopSet? && s.tasks != [] && s.workers != [] {
        assert s'.workers[0].Checking? || s'.workers[0].Running?;
      }
  }

  // ---- Runs ----

  ghost predicate Run(s: State, steps: seq<Action>, s': State)
    decreases |steps|
  {
    if steps == [] then s' == s
    else Enabled(s, steps[0]) && Run(Apply(s, steps[0]), steps[1..], s')
  }

  ghost predicate Reachable(n: nat, s: State) {
    exists steps :: Run(InitState(n), steps, s)
  }

  lemma {:induction false} RunKeeps(n: nat, s: State, steps: seq<Action>, s': State)
    requires Inv(n, s) && Run(s, steps, s')
    ensures Inv(n, s')
    decreases |steps|
  {
    hide Queue, Liveness;
    if steps != [] {
      QueueKept(s, steps[0]);
      LivenessKept(s, steps[0]);
      RunKeeps(n, Apply(s, steps[0]), steps[1..], s');
    }
  }

  lemma ReachableInv(n: nat, s: State)
    requires Reachable(n, s)
    ensures Inv(n, s)
  {
    InitInv(n);
    var steps :| Run(InitState(n), steps, s);
    RunKeeps(n, InitState(n), steps, s);
  }

  // ---- What holds in every reachable state ----

  /** Tasks leave the queue in the order in which enqueue accepted them. */
  lemma TasksAreFifo(n: nat, s: State)
    requires Reachable(n, s)
    ensures s.dequeued <= s.accepted && s.accepted[|s.dequeued|..] == s.tasks
  {
    ReachableInv(n, s);
  }

  /** The tasks handed to enqueue before the destructor begins. */
  function Submitted(steps: seq<Action>): seq<Task>
    decreases |steps|
  {
    if steps == [] || steps[0].Destroy? then []
    else (if steps[0].Enqueue? then [steps[0].task] else []) + Submitted(steps[1..])
  }

  lemma StepAccepts(s: State, a: Action)
    requires Enabled(s, a) && (s.stop <==> !s.destructor.NotBegun?)
    ensures var s' := Apply(s, a);
      && (s'.stop <==> !s'.destructor.NotBegun?) && (s'.stop <==> s.stop || a.Destroy?)
      && s'.accepted == s.accepted + if a.Enqueue? && !s.stop then [a.task] else []
  {}

  lemma {:induction false} RunAccepts(s: State, steps: seq<Action>, s': State)
    requires Run(s, steps, s') && (s.stop <==> !s.destructor.NotBegun?)
    ensures s'.accepted == s.accepted + if s.stop then [] else Submitted(steps)
    decreases |steps|
  {
    hide Apply;
    if steps != [] {
      StepAccepts(s, steps[0]);
      RunAccepts(Apply(s, steps[0]), steps[1..], s');
    }
  }

  /** Enqueue accepts exactly the tasks submitted before the destructor begins, in that order. */
  lemma AcceptedIsSubmitted(n: nat, steps: seq<Action>, s: State)
    requires Run(InitState(n), steps, s)
    ensures s.accepted == Submitted(steps)
  {
    RunAccepts(InitState(n), steps, s);
    assert [] + Submitted(steps) == Submitted(steps);
  }

  function Signals(steps: seq<Action>): nat
    decreases |steps|
  {
    if steps == [] then 0 else (if steps[0].NotifyOne? then 1 else 0) + Signals(steps[1..])
  }

  lemma StepSignals(s: State, a: Action)
    requires Enabled(s, a)
    ensures |Apply(s, a).accepted| - Apply(s, a).toNotify
         == |s.accepted| - s.toNotify + if a.NotifyOne? then 1 else 0
  {}

  lemma {:induction false} RunSignals(s: State, steps: seq<Action>, s': State)
    requires Run(s, steps, s')
    ensures |s'.accepted| - s'.toNotify == |s.accepted| - s.toNotify + Signals(steps)
    decreases |steps|
  {
    hide Apply;
    if steps != [] {
      StepSignals(s, steps[0]);
      RunSignals(Apply(s, steps[0]), steps[1..], s');
    }
  }

  /** Every accepted task is signalled once, or its signal is still to come. */
  lemma OneSignalPerTask(n: nat, steps: seq<Action>, s: State)
    requires Run(InitState(n), steps, s)
    ensures Signals(steps) + s.toNotify == |s.accepted|
  {
    RunSignals(InitState(n), steps, s);
  }

  /** So once the destructor has returned, the tasks that ran are those submitted before it
      began, each as often as it was submitted, in a pool with a worker; in one without, none
      ran. */
  lemma SubmittedRunExactlyOnce(n: nat, steps: seq<Action>, s: State)
    requires Run(InitState(n), steps, s) && s.destructor.Done?
    ensures multiset(s.executed) == if n >= 1 then multiset(Submitted(steps)) else multiset{}
  {
    hide Run, Submitted;
    assert Reachable(n, s);
    AcceptedIsSubmitted(n, steps, s);
    EveryTaskRunsExactlyOnce(n, s);
    if n == 0 {
      NoWorkerRunsNothing(s);
    }
  }

  /** When the destructor returns every accepted task has run exactly as often as it was
      accepted, unless the pool has no worker and a task was accepted. */
  lemma EveryTaskRunsExactlyOnce(n: nat, s: State)
    requires Reachable(n, s) && s.destructor.Done?
    ensures multiset(s.executed) == multiset(s.accepted) <==> n >= 1 || s.accepted == []
  {
    ReachableInv(n, s);
    forall x ensures Held(s.workers, x) == 0 {
      HeldNone(s.workers, x);
    }
    assert multiset(s.dequeued) == multiset(s.executed);
    if n >= 1 {
      assert s.workers[0].Exited?;
      assert s.dequeued == s.accepted;
    } else {
      NoWorkerRunsNothing(s);
      assert |multiset(s.executed)| == 0;
      assert |multiset(s.accepted)| == |s.accepted|;
    }
  }

  lemma NoWorkerRunsNothing(s: State)
    requires Reachable(0, s)
    ensures s.executed == []
  {
    var steps :| Run(InitState(0), steps, s);
    NoWorkerRun(InitState(0), steps, s);
  }

  lemma {:induction false} NoWorkerRun(s: State, steps: seq<Action>, s': State)
    requires s.workers == [] && Run(s, steps, s')
    ensures s'.executed == s.executed
    decreases |steps|
  {
    if steps != [] {
      NoWorkerRun(Apply(s, steps[0]), steps[1..], s');
    }
  }

  /** No wake-up is lost: while a task is queued in a pool with a worker, some step other
      than a spurious wake-up or a new call is enabled. */
  lemma NoLostWakeup(n: nat, s: State)
    requires Reachable(n, s) && n >= 1 && s.tasks != []
    ensures exists a: Action :: Enabled(s, a) && (a.NotifyOne? || a.Step? || (a.Destroy? && s.stop))
  {
    ReachableInv(n, s);
    if s.destructor.StopSet? {
      assert Enabled(s, Destroy);
    } else if s.toNotify > 0 {
      if SomeAsleep(s) {
        var w :| 0 <= w < |s.workers| && s.workers[w].Asleep?;
        assert Enabled(s, NotifyOne(w));
      } else {
        assert Enabled(s, NotifyOne(0));
      }
    } else {
      var w :| 0 <= w < |s.workers| && (s.workers[w].Checking? || s.workers[w].Running?);
      assert Enabled(s, Step(w));
    }
  }

  // ---- A pool in service runs everything ----

  /** What the workers have left to do while the pool is in service. */
  function Backlog(s: State): nat {
    3 * |s.tasks| + 2 * s.toNotify + Loads(s.workers)
  }

  function Load(w: Worker): nat {
    if w.Running? then 2 else if w.Checking? then 1 else 0
  }

  function Loads(workers: seq<Worker>): nat
    decreases |workers|
  {
    if workers == [] then 0 else Loads(workers[..|workers| - 1]) + Load(workers[|workers| - 1])
  }

  lemma {:induction false} LoadsUpdate(workers: seq<Worker>, w: nat, pc: Worker)
    requires w < |workers|
    ensures Loads(workers[w := pc]) == Loads(workers) - Load(workers[w]) + Load(pc)
    decreases |workers|
  {
    var n := |workers| - 1;
    if w == n {
      assert workers[w := pc][..n] == workers[..n];
    } else {
      assert workers[w := pc][..n] == workers[..n][w := pc];
      LoadsUpdate(workers[..n], w, pc);
    }
  }

  /** A step by which the pool gets on with its work. */
  predicate Works(a: Action) {
    a.NotifyOne? || a.Step?
  }

  lemma WorkDecreases(s: State, a: Action)
    requires Enabled(s, a) && Works(a)
    ensures Backlog(Apply(s, a)) < Backlog(s)
  {
    hide Loads;
    match a
    case NotifyOne(w) =>
      if SomeAsleep(s) {
        LoadsUpdate(s.workers, w, Checking);
      }
    case Step(w) => LoadsUpdate(s.workers, w, Apply(s, a).workers[w]);
    case _ =>
  }

  /** Left to itself, a pool works for at most `Backlog` steps ... */
  lemma {:induction false} WorkIsBounded(s: State, steps: seq<Action>, s': State)
    requires Run(s, steps, s') && forall k :: 0 <= k < |steps| ==> Works(steps[k])
    ensures |steps| + Backlog(s') <= Backlog(s)
    decreases |steps|
  {
    hide Backlog, Apply;
    if steps != [] {
      WorkDecreases(s, steps[0]);
      WorkIsBounded(Apply(s, steps[0]), steps[1..], s');
    }
  }

  /** ... and when it can work no further, every task submitted so far has run exactly once,
      unless it has no worker. */
  lemma IdleHasRunAll(n: nat, steps: seq<Action>, s: State)
    requires Run(InitState(n), steps, s) && n >= 1 && !s.stop
    requires forall a: Action :: Enabled(s, a) ==> !Works(a)
    ensures s.tasks == [] && multiset(s.executed) == multiset(Submitted(steps))
  {
    hide Run, Submitted, Held;
    assert Reachable(n, s);
    ReachableInv(n, s);
    AcceptedIsSubmitted(n, steps, s);
    if s.tasks != [] {
      NoLostWakeup(n, s);
    }
    forall w | 0 <= w < |s.workers| ensures !s.workers[w].Running? {
      assert !Enabled(s, Step(w));
    }
    forall x ensures Held(s.workers, x) == 0 {
      HeldNone(s.workers, x);
    }
    assert s.dequeued == s.accepted;
    assert multiset(s.dequeued) == multiset(s.executed);
  }

  // ---- The destructor finishes ----

  function Weight(w: Worker): nat {
    match w
    case Exited => 0
    case Checking => 1
    case Asleep => 2
    case Running(_) => 2
  }

  function Weights(workers: seq<Worker>): nat
    decreases |workers|
  {
    if workers == [] then 0 else Weights(workers[..|workers| - 1]) + Weight(workers[|workers| - 1])
  }

  /** What is left to do once `stop` is set. */
  function Measure(s: State): nat {
    3 * |s.tasks| + Weights(s.workers) + s.toNotify
    + match s.destructor
      case NotBegun => |s.workers| + 3
      case StopSet => |s.workers| + 2
      case Joining(i) => if i <= |s.workers| then |s.workers| + 1 - i else 0
      case Done => 0
  }

  lemma {:induction false} WeightsUpdate(workers: seq<Worker>, w: nat, pc: Worker)
    requires w < |workers|
    ensures Weights(workers[w := pc]) == Weights(workers) - Weight(workers[w]) + Weight(pc)
    decreases |workers|
  {
    var n := |workers| - 1;
    if w == n {
      assert workers[w := pc][..n] == workers[..n];
    } else {
      assert workers[w := pc][..n] == workers[..n][w := pc];
      WeightsUpdate(workers[..n], w, pc);
    }
  }

  lemma {:induction false} WeightsWoken(workers: seq<Worker>)
    ensures Weights(WakeAll(workers)) <= Weights(workers)
    decreases |workers|
  {
    if workers != [] {
      WeightsWoken(workers[..|workers| - 1]);
      assert WakeAll(workers)[..|workers| - 1] == WakeAll(workers[..|workers| - 1]);
    }
  }

  /** After stop a call of enqueue changes nothing, and every other step brings the
      destructor closer to its end. */
  lemma StoppedStepDecreases(n: nat, s: State, a: Action)
    requires Inv(n, s) && s.stop && Enabled(s, a)
    ensures if a.Enqueue? then Apply(s, a) == s else Measure(Apply(s, a)) < Measure(s)
  {
    hide Weights, Queue;
    match a
    case Enqueue(task) =>
    case NotifyOne(w) =>
      if SomeAsleep(s) {
        WeightsUpdate(s.workers, w, Checking);
      }
    case Wake(w) => WeightsUpdate(s.workers, w, Checking);
    case Step(w) => WeightsUpdate(s.workers, w, Apply(s, a).workers[w]);
    case Destroy => WeightsWoken(s.workers);
  }

  /** After stop, until the destructor is done, some step of it or of a worker is enabled. */
  lemma StoppedIsNeverStuck(n: nat, s: State)
    requires Reachable(n, s) && s.stop && !s.destructor.Done?
    ensures exists a: Action :: Enabled(s, a) && (a.Step? || a.Destroy?)
  {
    ReachableInv(n, s);
    if s.destructor.Joining? && s.destructor.i < |s.workers| && !s.workers[s.destructor.i].Exited? {
      assert !s.workers[s.destructor.i].Asleep?;
      assert Enabled(s, Step(s.destructor.i));
    } else {
      assert Enabled(s, Destroy);
    }
  }

  /** So every run from a stopped pool, refused calls aside, is at most `Measure` steps long,
      and accepts nothing more. */
  lemma {:induction false} DestructorFinishes(n: nat, s: State, steps: seq<Action>, s': State)
    requires Inv(n, s) && s.stop && Run(s, steps, s')
    requires forall k :: 0 <= k < |steps| ==> !steps[k].Enqueue?
    ensures |steps| + Measure(s') <= Measure(s) && s'.stop && s'.accepted == s.accepted
    decreases |steps|
  {
    hide Queue, Liveness, Measure;
    if steps != [] {
      StoppedStepDecreases(n, s, steps[0]);
      QueueKept(s, steps[0]);
      LivenessKept(s, steps[0]);
      DestructorFinishes(n, Apply(s, steps[0]), steps[1..], s');
    }
  }
}
