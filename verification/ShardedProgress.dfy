/** What the sharded pipeline gets done: what a push decides, that running shards have live
    workers, that every accepted event is served within a bounded number of its worker's
    steps, and what the watchdog does about a worker that takes none. */
module ShardedProgress {
  import opened BoundedQueue
  import opened QueueHistory
  import opened Sharded
  import opened Subsequences

  // ---- Ingest ----

  /** What a push of ev does to a shard: it goes to the end of the queue if there is room or,
      under the Priority policy, in place of the oldest if it scores high enough. */
  ghost predicate Decides(c: Config, sh: Shard, ev: Event, sh': Shard, accepted: bool) {
    var full := |sh.items| >= c.capacity;
    && (accepted <==> !full || (c.policy == Priority && (if ev.rateHz > 5000.0 then 0.7 else 0.1) >= c.keepAbove))
    && (accepted && !full ==> sh'.items == sh.items + [ev] && sh'.evicted == sh.evicted)
    && (accepted && full ==> sh.items != [] && sh'.items == sh.items[1..] + [ev] && sh'.evicted == sh.evicted + 1)
    && (accepted ==> sh'.enqueued == sh.enqueued + [ev])
    && (!accepted ==> sh'.items == sh.items && sh'.enqueued == sh.enqueued && sh'.evicted == sh.evicted)
    && sh'.drops == sh.drops + (if full && c.policy == Priority then 1 else 0)
    && sh'.handled == sh.handled && sh'.threads == sh.threads && sh'.running == sh.running
  }

  lemma PushDecides(c: Config, sh: Shard, ev: Event)
    requires c.capacity >= 1
    ensures Decides(c, sh, ev, Push(c, sh, ev), PushOutcome(c, |sh.items|, ev).Ok())
  {}

  /** What one attempt to push leaves of the rest: another shard is as it was, an accepted event
      is logged, and a refused one is tried again under Block and becomes a counted drop
      otherwise. */
  ghost predicate Attempted(c: Config, s: State, id: nat, i: nat, s': State, accepted: bool)
    requires id in s.calls && !s.calls[id].Rejected?
  {
    && (forall k :: 0 <= k < |s.shards| && k != i ==> k < |s'.shards| && s'.shards[k] == s.shards[k])
    && s'.acceptedLog == s.acceptedLog + (if accepted then [s.calls[id].ev] else [])
    && s'.calls == (if accepted then s.calls - {id} else if c.policy == Block then s.calls else s.calls[id := Rejected])
    && s'.dropped == s.dropped && s'.handledLog == s.handledLog
  }

  /** A push is decided by the queue of the event's shard alone. */
  lemma PushIsDecided(c: Config, s: State, id: nat)
    requires Reachable(c, s) && Enabled(c, s, TryPush(id))
    ensures ConfigOk(c) && |s.last| == |s.missed| == |s.shards| == c.shards
    ensures var s', i := Apply(c, s, TryPush(id)), ShardFor(c, s.calls[id].ev);
      var accepted := |s'.acceptedLog| > |s.acceptedLog|;
      && |s'.shards| == |s.shards|
      && Decides(c, s.shards[i], s.calls[id].ev, s'.shards[i], accepted)
      && Attempted(c, s, id, i, s', accepted)
  {
    ReachableInv(c, s);
    hide *;
    PushFacts(c, s, id);
    SizesOf(c, s);
    var ev := s.calls[id].ev;
    PushDecides(c, s.shards[ShardFor(c, ev)], ev);
    PushedState(c, s, id);
  }

  lemma SizesOf(c: Config, s: State)
    requires Inv(c, s)
    ensures ConfigOk(c) && |s.last| == |s.missed| == |s.shards| == c.shards
  {
    hide Histories, Phases, Sampled;
  }

  lemma PushedState(c: Config, s: State, id: nat)
    requires ConfigOk(c) && |s.last| == |s.missed| == |s.shards| == c.shards && Enabled(c, s, TryPush(id))
    ensures var s', i := Apply(c, s, TryPush(id)), ShardFor(c, s.calls[id].ev);
      var accepted := PushOutcome(c, |s.shards[i].items|, s.calls[id].ev).Ok();
      && s'.shards == s.shards[i := Push(c, s.shards[i], s.calls[id].ev)]
      && (|s'.acceptedLog| > |s.acceptedLog| <==> accepted)
      && Attempted(c, s, id, i, s', accepted)
  {
    hide PushOutcome, Push, ShardFor;
  }

  /** An accepted event is in the shard of its session or user, if that is what events are
      routed by and it has one, and else in that of its source. */
  lemma RoutedByField(c: Config, s: State, i: nat, k: nat)
    requires Reachable(c, s) && i < |s.shards| && k < |s.shards[i].enqueued|
    ensures ConfigOk(c)
    ensures var ev := s.shards[i].enqueued[k];
      && (c.hashKey == "session" && ev.session.Some? ==> i == (c.hash(ev.session.value) % 0x1_0000_0000) % c.shards)
      && (c.hashKey == "user" && ev.user.Some? ==> i == (c.hash(ev.user.value) % 0x1_0000_0000) % c.shards)
      && ((c.hashKey == "session" ==> ev.session.None?) && (c.hashKey == "user" ==> ev.user.None?) ==>
            i == (c.hash(ev.source) % 0x1_0000_0000) % c.shards)
  {
    ReachableInv(c, s);
    hide LogsAgree, TotalEnqueued, ShardInv, Phases, Sampled;
    assert "session" != "user" by {
      assert |"session"| == 7 && |"user"| == 4;
    }
  }

  /** Under Block no event is dropped. */
  lemma {:induction false} BlockDropsNothing(c: Config, steps: seq<Action>, s: State)
    requires ConfigOk(c) && c.policy == Block && Inv(c, InitState(c)) && Run(c, InitState(c), steps, s)
    ensures s.dropped == 0
  {
    BlockRun(c, InitState(c), steps, s);
  }

  ghost predicate NoRejects(s: State) {
    s.dropped == 0 && forall id :: id in s.calls ==> s.calls[id].Trying?
  }

  lemma {:induction false} BlockRun(c: Config, s: State, steps: seq<Action>, s': State)
    requires c.policy == Block && Inv(c, s) && NoRejects(s) && Run(c, s, steps, s')
    ensures s'.dropped == 0
    decreases |steps|
  {
    hide Apply, Histories, Phases, Sampled;
    if steps != [] {
      StepKeeps(c, s, steps[0]);
      BlockStep(c, s, steps[0]);
      BlockRun(c, Apply(c, s, steps[0]), steps[1..], s');
    }
  }

  lemma BlockStep(c: Config, s: State, a: Action)
    requires c.policy == Block && Inv(c, s) && NoRejects(s) && Enabled(c, s, a)
    ensures NoRejects(Apply(c, s, a))
  {
    hide Histories, Phases, Sampled, Push, PushOutcome, ShardFor, WorkerStep, Spawn;
  }

  // ---- Live workers ----

  /** A shard that is running has a worker in its loop, one that will go on. */
  predicate Alive(sh: Shard) {
    sh.running ==> sh.threads != [] && !sh.threads[|sh.threads| - 1].Exited? && !sh.threads[|sh.threads| - 1].AtSize?
  }

  /** How many silent visits the watchdog puts up with. */
  function Limit(c: Config): nat {
    if c.maxMissed == 0 then 1 else c.maxMissed
  }

  /** Started shards run until the watchdog or the controller stops them. */
  ghost predicate InService(c: Config, s: State) {
    && |s.last| == |s.missed| == |s.shards|
    && (forall i :: 0 <= i < |s.shards| ==> Alive(s.shards[i]) && s.last[i] <= s.shards[i].heartbeat)
    && (forall i :: 0 <= i < |s.shards| ==> s.missed[i] < Limit(c) || s.watch == Stopping(i))
    && (s.main.Built? || s.main.Starting? ==> !s.watchFlag)
    && (s.main.Starting? ==> forall i :: 0 <= i < s.main.i && i < |s.shards| ==> s.shards[i].running)
    && (s.main.WatchdogStop? || s.main.Closing? || s.main.Joining? || s.main.Down? ==> !s.watchFlag)
    && (s.main.Closing? ==> forall i :: 0 <= i < s.main.i && i < |s.shards| ==> !s.shards[i].running)
    && (s.main.Joining? || s.main.Down? ==> forall i :: 0 <= i < |s.shards| ==> !s.shards[i].running)
    && (s.main.Serving? ==>
          && (c.autoRestart <==> s.watchFlag)
          && (!s.watchFlag ==> s.watch.Off?)
          && (s.watchFlag ==> s.watch.Asleep? || s.watch.At? || s.watch.Stopping?)
          && (forall i :: 0 <= i < |s.shards| ==> s.shards[i].running || s.watch == Stopping(i)))
  }

  lemma WorkerStaysAlive(sh: Shard, t: nat)
    requires Alive(sh) && t < |sh.threads| && !sh.threads[t].Exited?
    requires t == |sh.threads| - 1
    ensures Alive(WorkerStep(sh, t)) && WorkerStep(sh, t).running == sh.running
    ensures WorkerStep(sh, t).heartbeat >= sh.heartbeat
  {}

  lemma PushStaysAlive(c: Config, sh: Shard, ev: Event)
    requires c.capacity >= 1
    ensures Push(c, sh, ev).threads == sh.threads && Push(c, sh, ev).running == sh.running
    ensures Push(c, sh, ev).heartbeat == sh.heartbeat
  {
    hide PushOutcome;
  }

  lemma InServiceStep(c: Config, s: State, a: Action)
    requires Inv(c, s) && InService(c, s) && Enabled(c, s, a)
    ensures InService(c, Apply(c, s, a))
  {
    hide *;
    match a
    case TryPush(id) => PushStaysInService(c, s, id);
    case Work(i, t) => WorkStaysInService(c, s, i, t);
    case WatchStep => WatchStaysInService(c, s);
    case MainStep => MainStaysInService(c, s);
    case _ => CallStaysInService(c, s, a);
  }

  lemma CallStaysInService(c: Config, s: State, a: Action)
    requires Inv(c, s) && InService(c, s) && Enabled(c, s, a)
    requires !a.TryPush? && !a.Work? && !a.WatchStep? && !a.MainStep?
    ensures InService(c, Apply(c, s, a))
  {
    hide Histories, Sampled, Alive;
  }

  /** A shard changed by a push or by its worker. */
  lemma OneShardInService(c: Config, s: State, i: nat, sh: Shard, s': State)
    requires InService(c, s) && i < |s.shards| && Alive(sh) && sh.running == s.shards[i].running
    requires sh.heartbeat >= s.shards[i].heartbeat
    requires s'.shards == s.shards[i := sh] && s'.main == s.main && s'.watch == s.watch && s'.watchFlag == s.watchFlag
    requires s'.last == s.last && s'.missed == s.missed
    ensures InService(c, s')
  {
    hide Alive;
  }

  lemma PushStaysInService(c: Config, s: State, id: nat)
    requires Inv(c, s) && InService(c, s) && Enabled(c, s, TryPush(id))
    ensures InService(c, Apply(c, s, TryPush(id)))
  {
    hide Histories, Phases, Sampled, ShardFor, PushOutcome, Push, InService, Alive;
    var ev := s.calls[id].ev;
    var i := ShardFor(c, ev);
    OneIsAlive(c, s, i);
    PushStaysAlive(c, s.shards[i], ev);
    SameThreadsAlive(s.shards[i], Push(c, s.shards[i], ev));
    OneShardInService(c, s, i, Push(c, s.shards[i], ev), Apply(c, s, TryPush(id)));
  }

  lemma WorkStaysInService(c: Config, s: State, i: nat, t: nat)
    requires Inv(c, s) && InService(c, s) && Enabled(c, s, Work(i, t))
    ensures InService(c, Apply(c, s, Work(i, t)))
  {
    hide Histories, Phases, Sampled, ShardInv, WorkerStep, InService, Alive;
    OneIsAlive(c, s, i);
    OneShard(c, s.shards, s.acceptedLog, s.handledLog, i);
    OnlyLastRuns(c, s.shards[i], t);
    WorkerStaysAlive(s.shards[i], t);
    OneShardInService(c, s, i, WorkerStep(s.shards[i], t), Apply(c, s, Work(i, t)));
  }

  lemma OneIsAlive(c: Config, s: State, i: nat)
    requires InService(c, s) && i < |s.shards|
    ensures Alive(s.shards[i])
  {}

  lemma SameThreadsAlive(sh: Shard, sh': Shard)
    requires Alive(sh) && sh'.threads == sh.threads && (sh'.running ==> sh.running)
    ensures Alive(sh')
  {}

  lemma StoppedIsAlive(sh: Shard)
    requires !sh.running
    ensures Alive(sh)
  {}

  lemma SpawnedIsAlive(sh: Shard)
    ensures Alive(Spawn(sh)) && Spawn(sh).running && Spawn(sh).heartbeat == sh.heartbeat
  {}

  lemma WatchStaysInService(c: Config, s: State)
    requires Inv(c, s) && InService(c, s) && Enabled(c, s, WatchStep)
    ensures InService(c, Apply(c, s, WatchStep))
  {
    hide Histories, Sampled, Spawn, Alive, Shard.Joinable;
    match s.watch
    case At(i) =>
      if i < |s.shards| {
        StoppedIsAlive(s.shards[i].(running := false));
      }
    case Stopping(i) => SpawnedIsAlive(s.shards[i]);
    case _ =>
  }

  lemma MainStaysInService(c: Config, s: State)
    requires Inv(c, s) && InService(c, s) && Enabled(c, s, MainStep)
    ensures InService(c, Apply(c, s, MainStep))
  {
    hide Histories, Sampled, Spawn, Alive, Shard.Joinable;
    match s.main
    case Starting(i) =>
      if i < |s.shards| {
        SpawnedIsAlive(s.shards[i]);
      }
    case Closing(i) =>
      if i < |s.shards| {
        StoppedIsAlive(s.shards[i].(running := false, closed := true));
      }
    case _ =>
  }

  lemma {:induction false} InServiceRun(c: Config, s: State, steps: seq<Action>, s': State)
    requires Inv(c, s) && InService(c, s) && Run(c, s, steps, s')
    ensures InService(c, s')
    decreases |steps|
  {
    hide Apply, Histories, Phases, Sampled, InService, Enabled;
    if steps != [] {
      StepKeeps(c, s, steps[0]);
      InServiceStep(c, s, steps[0]);
      InServiceRun(c, Apply(c, s, steps[0]), steps[1..], s');
    }
  }

  lemma ReachableInService(c: Config, s: State)
    requires Reachable(c, s)
    ensures InService(c, s)
  {
    hide Apply, Inv, Run;
    InitInv(c);
    var steps :| Run(c, InitState(c), steps, s);
    InServiceRun(c, InitState(c), steps, s);
  }

  /** While the pipeline serves, every shard makes progress: it is running and its worker has a
      step to take, or the watchdog is restarting it and either the old worker has a step to
      take or the watchdog can start the new one. */
  lemma ServingIsNeverStuck(c: Config, s: State, i: nat)
    requires Reachable(c, s) && s.main.Serving? && i < |s.shards|
    ensures var sh := s.shards[i]; var last := |sh.threads| - 1;
      if sh.running then
        last >= 0 && Enabled(c, s, Work(i, last)) && !sh.threads[last].AtSize?
      else
        c.autoRestart && s.watch == Stopping(i) && ((last >= 0 && Enabled(c, s, Work(i, last))) || Enabled(c, s, WatchStep))
  {
    hide Histories;
    ReachableInService(c, s);
    assert Alive(s.shards[i]);
  }

  /** Outside Serving too, a running shard has a live worker that is not leaving its loop. */
  lemma RunningIsAlive(c: Config, s: State, i: nat)
    requires Reachable(c, s) && i < |s.shards| && s.shards[i].running
    ensures var sh := s.shards[i];
      && sh.threads != [] && !sh.threads[|sh.threads| - 1].Exited? && !sh.threads[|sh.threads| - 1].AtSize?
      && Enabled(c, s, Work(i, |sh.threads| - 1))
  {
    ReachableInService(c, s);
    assert Alive(s.shards[i]);
  }

  // ---- Every accepted event is served ----

  /** How many of a shard's accepted events are done with: handled, or evicted. */
  function Served(sh: Shard): nat {
    |sh.handled| + sh.evicted
  }

  /** Steps to the next handled event that a worker at pc may still need, at most. */
  function Stage(pc: Thread): nat {
    match pc
    case Working(_) => 1
    case AtPop => 2
    case AtSize => 3
    case AtLoop => 4
    case Finishing => 5
    case Exited(_) => 5
    case Empty(_) => 6
  }

  /** A bound on the worker steps until events 0 to j of the shard are done with. */
  function Ahead(sh: Shard, j: nat): nat {
    if Served(sh) > j then 0
    else 5 * (j + 1 - Served(sh)) + (if sh.threads == [] then 5 else Stage(sh.threads[|sh.threads| - 1]))
  }

  /** sh' is sh later, having taken n worker steps on the way. */
  ghost predicate Closer(sh: Shard, sh': Shard, j: nat, n: nat) {
    && sh.enqueued <= sh'.enqueued
    && Served(sh) <= Served(sh')
    && (Served(sh') > j || Ahead(sh', j) + n <= Ahead(sh, j))
  }

  lemma WorkIsCloser(c: Config, sh: Shard, t: nat, j: nat)
    requires ShardInv(c, sh) && t < |sh.threads| && !sh.threads[t].Exited? && j < |sh.enqueued|
    ensures Closer(sh, WorkerStep(sh, t), j, 1)
  {
    hide Subseq;
    assert t == |sh.threads| - 1;
  }

  lemma PushIsCloser(c: Config, sh: Shard, ev: Event, j: nat)
    requires c.capacity >= 1
    ensures Closer(sh, Push(c, sh, ev), j, 0)
  {
    hide PushOutcome, Stage;
  }

  lemma SpawnIsCloser(sh: Shard, j: nat)
    requires sh.Joinable()
    ensures Closer(sh, Spawn(sh), j, 0)
  {}

  lemma StopIsCloser(sh: Shard, running: bool, closed: bool, j: nat)
    ensures Closer(sh, sh.(running := running, closed := closed), j, 0)
  {}

  lemma StepIsCloser(c: Config, s: State, a: Action, i: nat, j: nat)
    requires Inv(c, s) && Enabled(c, s, a) && i < |s.shards| && j < |s.shards[i].enqueued|
    ensures |Apply(c, s, a).shards| == |s.shards|
    ensures Closer(s.shards[i], Apply(c, s, a).shards[i], j, if a.Work? && a.i == i then 1 else 0)
  {
    hide *;
    StepKeepsShards(c, s, a);
    if a.TryPush? || a.Work? {
      OwnStepIsCloser(c, s, a, i, j);
    } else {
      OtherStepIsCloser(c, s, a, i, j);
    }
  }

  lemma StepKeepsShards(c: Config, s: State, a: Action)
    requires Inv(c, s) && Enabled(c, s, a)
    ensures |Apply(c, s, a).shards| == |s.shards|
  {
    StepKeeps(c, s, a);
    hide Histories, Phases, Sampled, Apply, Enabled;
  }

  lemma NothingIsCloser(sh: Shard, j: nat)
    ensures Closer(sh, sh, j, 0)
  {}

  lemma OwnStepIsCloser(c: Config, s: State, a: Action, i: nat, j: nat)
    requires Inv(c, s) && Enabled(c, s, a) && (a.TryPush? || a.Work?) && i < |s.shards| && j < |s.shards[i].enqueued|
    requires |Apply(c, s, a).shards| == |s.shards|
    ensures Closer(s.shards[i], Apply(c, s, a).shards[i], j, if a.Work? && a.i == i then 1 else 0)
  {
    hide Histories, Phases, Sampled, ShardFor, PushOutcome, Push, WorkerStep, Closer;
    var sh := s.shards[i];
    NothingIsCloser(sh, j);
    match a
    case TryPush(id) => PushIsCloser(c, sh, s.calls[id].ev, j);
    case Work(k, t) =>
      if k == i {
        OneShard(c, s.shards, s.acceptedLog, s.handledLog, i);
        WorkIsCloser(c, sh, t, j);
      }
  }

  lemma OtherStepIsCloser(c: Config, s: State, a: Action, i: nat, j: nat)
    requires Inv(c, s) && Enabled(c, s, a) && !a.TryPush? && !a.Work? && i < |s.shards| && j < |s.shards[i].enqueued|
    requires |Apply(c, s, a).shards| == |s.shards|
    ensures Closer(s.shards[i], Apply(c, s, a).shards[i], j, 0)
  {
    hide Histories, Phases, Sampled, Closer, Spawn, Shard.Joinable;
    if a.WatchStep? {
      WatchStepIsCloser(c, s, i, j);
    } else if a.MainStep? {
      MainStepIsCloser(c, s, i, j);
    } else {
      NothingIsCloser(s.shards[i], j);
    }
  }

  lemma WatchStepIsCloser(c: Config, s: State, i: nat, j: nat)
    requires Inv(c, s) && Enabled(c, s, WatchStep) && i < |s.shards| && j < |s.shards[i].enqueued|
    requires |Apply(c, s, WatchStep).shards| == |s.shards|
    ensures Closer(s.shards[i], Apply(c, s, WatchStep).shards[i], j, 0)
  {
    hide Histories, Phases, Sampled, Closer, Spawn, Shard.Joinable;
    var sh := s.shards[i];
    NothingIsCloser(sh, j);
    StopIsCloser(sh, false, sh.closed, j);
    assert sh.(running := false, closed := sh.closed) == sh.(running := false);
    if s.watch == Stopping(i) {
      SpawnIsCloser(sh, j);
    }
  }

  lemma MainStepIsCloser(c: Config, s: State, i: nat, j: nat)
    requires Inv(c, s) && Enabled(c, s, MainStep) && i < |s.shards| && j < |s.shards[i].enqueued|
    requires |Apply(c, s, MainStep).shards| == |s.shards|
    ensures Closer(s.shards[i], Apply(c, s, MainStep).shards[i], j, 0)
  {
    hide Histories, Phases, Sampled, Closer, Spawn, Shard.Joinable;
    var sh := s.shards[i];
    NothingIsCloser(sh, j);
    StopIsCloser(sh, false, true, j);
    if s.main == Starting(i) {
      StartingIsJoinable(c, s, i);
      SpawnIsCloser(sh, j);
    }
  }

  lemma StartingIsJoinable(c: Config, s: State, i: nat)
    requires Inv(c, s) && s.main == Starting(i) && i < |s.shards|
    ensures s.shards[i].Joinable()
  {
    hide Histories, Sampled;
  }

  /** How many steps the workers of shard i take in a run. */
  function WorkSteps(steps: seq<Action>, i: nat): nat
    decreases |steps|
  {
    if steps == [] then 0 else (if steps[0].Work? && steps[0].i == i then 1 else 0) + WorkSteps(steps[1..], i)
  }

  lemma CloserTrans(a: Shard, b: Shard, d: Shard, j: nat, m: nat, n: nat)
    requires Closer(a, b, j, m) && Closer(b, d, j, n)
    ensures Closer(a, d, j, m + n)
  {
    hide Stage;
  }

  lemma {:induction false} RunIsCloser(c: Config, s: State, steps: seq<Action>, s': State, i: nat, j: nat)
    requires Inv(c, s) && Run(c, s, steps, s') && i < |s.shards| && j < |s.shards[i].enqueued|
    ensures |s'.shards| == |s.shards| && Closer(s.shards[i], s'.shards[i], j, WorkSteps(steps, i))
    decreases |steps|
  {
    hide Apply, Histories, Phases, Sampled, Closer;
    if steps == [] {
      StopIsCloser(s.shards[i], s.shards[i].running, s.shards[i].closed, j);
    } else {
      var s1 := Apply(c, s, steps[0]);
      StepKeeps(c, s, steps[0]);
      StepIsCloser(c, s, steps[0], i, j);
      StillEnqueued(s.shards[i], s1.shards[i], j, if steps[0].Work? && steps[0].i == i then 1 else 0);
      RunIsCloser(c, s1, steps[1..], s', i, j);
      CloserTrans(s.shards[i], s1.shards[i], s'.shards[i], j, if steps[0].Work? && steps[0].i == i then 1 else 0, WorkSteps(steps[1..], i));
    }
  }

  lemma StillEnqueued(sh: Shard, sh': Shard, j: nat, n: nat)
    requires Closer(sh, sh', j, n) && j < |sh.enqueued|
    ensures j < |sh'.enqueued|
  {}

  /** Whatever else happens, restarts and shutdown included: once a shard has accepted its event
      number j, at most five worker steps per event not yet done with, and ten more, pass before
      j and all before it are handled or evicted. Without the evicting policy they are handled,
      in order. */
  lemma EventsAreServed(c: Config, s: State, steps: seq<Action>, s': State, i: nat, j: nat)
    requires Reachable(c, s) && Inv(c, s) && Run(c, s, steps, s') && i < |s.shards| && j < |s.shards[i].enqueued|
    ensures |s'.shards| == |s.shards|
    ensures var sh, sh' := s.shards[i], s'.shards[i];
      && (WorkSteps(steps, i) > 10 + 5 * (j - |sh.handled| - sh.evicted) && j >= |sh.handled| + sh.evicted ==>
            |sh'.handled| + sh'.evicted > j)
      && (c.policy != Priority && |sh'.handled| > j ==> sh'.evicted == 0 && sh'.handled[j] == sh.enqueued[j])
  {
    hide Histories, Phases, Sampled, Run, WorkSteps, Stage;
    RunIsCloser(c, s, steps, s', i, j);
    RunKeeps(c, s, steps, s');
    StageBounds();
    if c.policy != Priority {
      OneShard(c, s'.shards, s'.acceptedLog, s'.handledLog, i);
      HandledInOrder(c, s'.shards[i]);
    }
  }

  lemma StageBounds()
    ensures forall pc :: 1 <= Stage(pc) <= 6
  {}

  lemma HandledInOrder(c: Config, sh: Shard)
    requires ShardInv(c, sh) && c.policy != Priority
    ensures sh.evicted == 0 && sh.handled <= sh.enqueued
  {
    SubseqFull(sh.handled + sh.InFlight(), sh.enqueued[..sh.Gone()]);
  }

  /** A running shard with a queued event, its worker left alone: within five steps the worker
      has handled what it held and then the head of the queue. */
  lemma HeadIsHandled(c: Config, s: State, i: nat) returns (steps: seq<Action>, s': State)
    requires Reachable(c, s) && Inv(c, s) && i < |s.shards| && s.shards[i].running && s.shards[i].items != []
    ensures |steps| <= 5 && forall k :: 0 <= k < |steps| ==> steps[k].Work? && steps[k].i == i
    ensures Run(c, s, steps, s') && |s'.shards| == |s.shards|
    ensures s'.shards[i].handled == s.shards[i].handled + s.shards[i].InFlight() + [s.shards[i].items[0]]
  {
    hide *;
    RunningIsAlive(c, s, i);
    ToHeadBound(s.shards[i].threads[|s.shards[i].threads| - 1]);
    steps, s' := Serve(c, s, i);
  }

  lemma ToHeadBound(pc: Thread)
    ensures ToHead(pc) <= 5
  {}

  /** Worker steps to the handling of the queue's head. */
  function ToHead(pc: Thread): nat {
    match pc
    case AtPop => 2
    case AtLoop => 3
    case Empty(_) => 4
    case Finishing => 4
    case Working(_) => 5
    case _ => 0
  }

  lemma {:induction false} Serve(c: Config, s: State, i: nat) returns (steps: seq<Action>, s': State)
    requires Inv(c, s) && i < |s.shards| && s.shards[i].running && s.shards[i].items != [] && s.shards[i].threads != []
    requires var pc := s.shards[i].threads[|s.shards[i].threads| - 1]; !pc.Exited? && !pc.AtSize?
    ensures |steps| == ToHead(s.shards[i].threads[|s.shards[i].threads| - 1])
    ensures forall k :: 0 <= k < |steps| ==> steps[k].Work? && steps[k].i == i
    ensures Run(c, s, steps, s') && |s'.shards| == |s.shards|
    ensures s'.shards[i].handled == s.shards[i].handled + s.shards[i].InFlight() + [s.shards[i].items[0]]
    decreases ToHead(s.shards[i].threads[|s.shards[i].threads| - 1])
  {
    hide Histories, Phases, Sampled, Run, Apply, Enabled, WorkerStep;
    var sh := s.shards[i];
    var t := |sh.threads| - 1;
    var a := Work(i, t);
    WorkApplies(c, s, i, t);
    var s1 := Apply(c, s, a);
    StepKeeps(c, s, a);
    TowardsHead(sh, t);
    if sh.threads[t].AtPop? {
      WorkApplies(c, s1, i, t);
      StepKeeps(c, s1, a);
      s' := Apply(c, s1, a);
      steps := [a] + [a];
      RunOne(c, s1, a);
      RunCons(c, s, a, [a], s');
    } else {
      var rest;
      rest, s' := Serve(c, s1, i);
      steps := [a] + rest;
      RunCons(c, s, a, rest, s');
    }
  }

  /** One step on the way to the head of a running shard's queue. */
  lemma TowardsHead(sh: Shard, t: nat)
    requires t == |sh.threads| - 1 && !sh.threads[t].Exited? && !sh.threads[t].AtSize? && sh.running && sh.items != []
    ensures var sh' := WorkerStep(sh, t);
      && |sh'.threads| == |sh.threads| && sh'.running
      && (if sh.threads[t].AtPop? then
            && sh'.threads[t].Working? && !sh'.threads[t].Exited?
            && WorkerStep(sh', t).handled == sh.handled + sh.InFlight() + [sh.items[0]]
          else
            && sh'.items == sh.items && !sh'.threads[t].Exited? && !sh'.threads[t].AtSize?
            && ToHead(sh'.threads[t]) + 1 == ToHead(sh.threads[t])
            && sh'.handled + sh'.InFlight() == sh.handled + sh.InFlight())
  {}

  lemma WorkApplies(c: Config, s: State, i: nat, t: nat)
    requires Inv(c, s) && i < |s.shards| && t < |s.shards[i].threads| && !s.shards[i].threads[t].Exited?
    ensures Enabled(c, s, Work(i, t)) && Apply(c, s, Work(i, t)).shards == s.shards[i := WorkerStep(s.shards[i], t)]
  {
    hide Histories, Phases, Sampled, WorkerStep;
  }

  lemma RunCons(c: Config, s: State, a: Action, rest: seq<Action>, s': State)
    requires Inv(c, s) && Enabled(c, s, a) && Inv(c, Apply(c, s, a)) && Run(c, Apply(c, s, a), rest, s')
    ensures Run(c, s, [a] + rest, s')
  {
    hide Apply, Histories, Phases, Sampled, Enabled;
    assert ([a] + rest)[1..] == rest;
  }

  lemma RunOne(c: Config, s: State, a: Action)
    requires Inv(c, s) && Enabled(c, s, a)
    ensures Run(c, s, [a], Apply(c, s, a))
  {
    hide Apply, Histories, Phases, Sampled, Enabled;
    StepKeeps(c, s, a);
    assert [a][1..] == [];
  }

  // ---- The watchdog ----

  /** How often in a run the watchdog looks at shard i. */
  ghost function Visits(c: Config, s: State, steps: seq<Action>, s': State, i: nat): nat
    requires Inv(c, s) && Run(c, s, steps, s')
    decreases |steps|
  {
    if steps == [] then 0
    else
      StepKeeps(c, s, steps[0]);
      (if Visit(s, steps[0], i) then 1 else 0) + Visits(c, Apply(c, s, steps[0]), steps[1..], s', i)
  }

  /** The watchdog looks at the shards one after the other, from the first to the last, and then
      rests; told to stop, it does so at the end of a round. */
  lemma WatchdogGoesRound(c: Config, s: State)
    requires Inv(c, s) && Enabled(c, s, WatchStep)
    ensures var w' := Apply(c, s, WatchStep).watch;
      match s.watch
      case Asleep => w' == if s.watchFlag then At(0) else Ended
      case At(i) => if i < |s.shards| then w' == At(i + 1) || w' == Stopping(i) else w' == Asleep
      case Stopping(i) => w' == At(i + 1)
      case _ => true
  {
    hide Histories, Phases, Sampled, Spawn;
  }

  /** What a step of anyone but the shard's own worker leaves in shard i and in the watchdog's
      notes on it. */
  ghost predicate Noted(c: Config, s: State, s': State, i: nat, visit: bool)
    requires i < |s.shards| == |s.last| == |s.missed|
  {
    && |s'.shards| == |s'.last| == |s'.missed| == |s.shards|
    && s'.shards[i].heartbeat == s.shards[i].heartbeat && s'.shards[i].threads == s.shards[i].threads
    && (if !visit then
          s'.last[i] == s.last[i] && s'.missed[i] == s.missed[i] && s'.watch != Stopping(i)
        else if s.shards[i].heartbeat != s.last[i] then
          s'.last[i] == s.shards[i].heartbeat && s'.missed[i] == 0 && s'.watch != Stopping(i)
        else
          && s'.last[i] == s.last[i] && s'.missed[i] == s.missed[i] + 1
          && (s'.watch == Stopping(i) <==> s'.missed[i] >= c.maxMissed)
          && (s'.watch == Stopping(i) ==> !s'.shards[i].running))
  }

  predicate Visit(s: State, a: Action, i: nat) {
    a.WatchStep? && s.watch == At(i)
  }

  lemma StepIsNoted(c: Config, s: State, a: Action, i: nat)
    requires Inv(c, s) && Enabled(c, s, a) && i < |s.shards|
    requires !(a.Work? && a.i == i) && s.watch != Stopping(i) && !s.shards[i].Joinable()
    ensures Noted(c, s, Apply(c, s, a), i, Visit(s, a, i))
  {
    hide Histories, Phases, Sampled, ShardFor, WorkerStep, Push, Spawn, Shard.Joinable;
    if a.TryPush? {
      PushStaysAlive(c, s.shards[ShardFor(c, s.calls[a.id].ev)], s.calls[a.id].ev);
    } else if a.WatchStep? {
      WatchIsNoted(c, s, i);
    } else if a.MainStep? {
      MainIsNoted(c, s, i);
    }
  }

  lemma MainIsNoted(c: Config, s: State, i: nat)
    requires Inv(c, s) && Enabled(c, s, MainStep) && i < |s.shards| && s.watch != Stopping(i) && !s.shards[i].Joinable()
    ensures Noted(c, s, Apply(c, s, MainStep), i, false)
  {
    hide Histories, Phases, Sampled, Spawn, Shard.Joinable;
    if s.main == Starting(i) {
      StartingIsJoinable(c, s, i);
      assert false;
    }
  }

  lemma WatchIsNoted(c: Config, s: State, i: nat)
    requires Inv(c, s) && Enabled(c, s, WatchStep) && i < |s.shards| && s.watch != Stopping(i)
    ensures Noted(c, s, Apply(c, s, WatchStep), i, s.watch == At(i))
  {
    hide Histories, Phases, Sampled, Spawn, Shard.Joinable;
  }

  /** While the watchdog waits for a worker that takes no step, it starts no other. */
  lemma WaitingStep(c: Config, s: State, a: Action, i: nat)
    requires Inv(c, s) && Enabled(c, s, a) && i < |s.shards|
    requires !(a.Work? && a.i == i) && s.watch == Stopping(i) && !s.shards[i].Joinable() && !s.shards[i].running
    ensures var s' := Apply(c, s, a);
      && |s'.shards| == |s.shards| && s'.watch == Stopping(i) && !s'.shards[i].running
      && s'.shards[i].threads == s.shards[i].threads
  {
    hide Histories, Sampled, ShardFor, WorkerStep, Push, Spawn;
    match a
    case TryPush(id) => PushStaysAlive(c, s.shards[ShardFor(c, s.calls[id].ev)], s.calls[id].ev);
    case _ =>
  }

  lemma {:induction false} WaitingRun(c: Config, s: State, steps: seq<Action>, s': State, i: nat)
    requires Inv(c, s) && Run(c, s, steps, s') && i < |s.shards| && WorkSteps(steps, i) == 0
    requires s.watch == Stopping(i) && !s.shards[i].Joinable() && !s.shards[i].running
    ensures |s'.shards| == |s.shards| && s'.watch == Stopping(i) && s'.shards[i].threads == s.shards[i].threads
    ensures Visits(c, s, steps, s', i) == 0
    decreases |steps|
  {
    hide Apply, Histories, Phases, Sampled, Enabled;
    if steps != [] {
      StepKeeps(c, s, steps[0]);
      WaitingStep(c, s, steps[0], i);
      WaitingRun(c, Apply(c, s, steps[0]), steps[1..], s', i);
    }
  }

  /** A worker that takes no step is noticed, at the watchdog's max_missed_beats'th look at an
      unchanged heartbeat and not before. But it is never replaced: the watchdog then waits for
      its thread to end, and the shard keeps the thread it has. */
  lemma {:induction false} HungWorkerIsAwaited(c: Config, s: State, steps: seq<Action>, s': State, i: nat)
    requires Inv(c, s) && Run(c, s, steps, s') && i < |s.shards| && WorkSteps(steps, i) == 0
    requires s.watch != Stopping(i) && !s.shards[i].Joinable()
    requires s.last[i] == s.shards[i].heartbeat && s.missed[i] < Limit(c)
    ensures |s'.shards| == |s.shards| && s'.shards[i].threads == s.shards[i].threads
    ensures s'.watch == Stopping(i) <==> s.missed[i] + Visits(c, s, steps, s', i) >= Limit(c)
    decreases |steps|
  {
    hide Apply, Histories, Phases, Sampled, Enabled;
    if steps != [] {
      var s1 := Apply(c, s, steps[0]);
      StepKeeps(c, s, steps[0]);
      StepIsNoted(c, s, steps[0], i);
      if s1.watch == Stopping(i) {
        WaitingRun(c, s1, steps[1..], s', i);
      } else {
        HungWorkerIsAwaited(c, s1, steps[1..], s', i);
      }
    }
  }

  /** In particular in every reachable state: its premise on the notes holds there. */
  lemma NotesAreBounded(c: Config, s: State, i: nat)
    requires Reachable(c, s) && i < |s.shards|
    ensures |s.last| == |s.missed| == |s.shards| && s.last[i] <= s.shards[i].heartbeat
    ensures s.watch != Stopping(i) ==> s.missed[i] < Limit(c)
  {
    ReachableInService(c, s);
  }

  /** A worker that has beaten since the watchdog's last look is spared by its next one. */
  lemma {:induction false} BeatingIsSpared(c: Config, s: State, steps: seq<Action>, s': State, i: nat)
    requires Reachable(c, s) && Inv(c, s) && Run(c, s, steps, s') && i < |s.shards| && s.watch != Stopping(i)
    requires s.last[i] < s.shards[i].heartbeat && Visits(c, s, steps, s', i) <= 1
    ensures |s'.missed| == |s.shards| && s'.watch != Stopping(i)
    ensures Visits(c, s, steps, s', i) == 1 ==> s'.missed[i] == 0
  {
    hide Run, Visits;
    SparedRun(c, s, steps, s', i);
  }

  /** The next look will find a new heartbeat; or it has been, and there is none to come. */
  lemma {:induction false} SparedRun(c: Config, s: State, steps: seq<Action>, s': State, i: nat)
    requires Inv(c, s) && Run(c, s, steps, s') && i < |s.shards| && s.watch != Stopping(i)
    requires var n := Visits(c, s, steps, s', i); n == 0 || (n == 1 && s.last[i] < s.shards[i].heartbeat)
    ensures |s'.missed| == |s.shards| && s'.watch != Stopping(i)
    ensures s'.missed[i] == if Visits(c, s, steps, s', i) == 1 then 0 else s.missed[i]
    decreases |steps|
  {
    hide Apply, Histories, Phases, Sampled, Enabled;
    if steps != [] {
      var s1 := Apply(c, s, steps[0]);
      StepKeeps(c, s, steps[0]);
      SparingStep(c, s, steps[0], i);
      SparedRun(c, s1, steps[1..], s', i);
    }
  }

  lemma SparingStep(c: Config, s: State, a: Action, i: nat)
    requires Inv(c, s) && Enabled(c, s, a) && i < |s.shards| && s.watch != Stopping(i)
    requires Visit(s, a, i) ==> s.last[i] < s.shards[i].heartbeat
    ensures var s' := Apply(c, s, a);
      && |s'.shards| == |s'.last| == |s'.missed| == |s.shards| && s'.watch != Stopping(i)
      && s'.missed[i] == (if Visit(s, a, i) then 0 else s.missed[i])
      && (!Visit(s, a, i) ==> s'.last[i] == s.last[i] && s'.shards[i].heartbeat >= s.shards[i].heartbeat)
  {
    hide Histories, Phases, Sampled, ShardFor, Push, WorkerStep, Spawn, Shard.Joinable;
    match a
    case TryPush(id) => PushStaysAlive(c, s.shards[ShardFor(c, s.calls[id].ev)], s.calls[id].ev);
    case Work(k, t) => WorkBeats(s.shards[k], t);
    case WatchStep => WatchIsNoted(c, s, i);
    case MainStep =>
      if s.main.Starting? && s.main.i < |s.shards| {
        SpawnedIsAlive(s.shards[s.main.i]);
      }
    case _ =>
  }

  lemma WorkBeats(sh: Shard, t: nat)
    requires t < |sh.threads| && !sh.threads[t].Exited?
    ensures WorkerStep(sh, t).heartbeat >= sh.heartbeat
  {}

  // ---- Shutdown ends ----

  /** From the call of shutdown to its return, it, a worker or the watchdog has a step to take. */
  lemma ShutdownIsNeverStuck(c: Config, s: State)
    requires Reachable(c, s) && (s.main.WatchdogStop? || s.main.Closing? || s.main.Joining?)
    ensures Enabled(c, s, MainStep) || Enabled(c, s, WatchStep)
         || exists i, t :: Enabled(c, s, Work(i, t))
  {
    hide Histories, Sampled;
    ReachableInv(c, s);
    if !Enabled(c, s, MainStep) && !Enabled(c, s, WatchStep) {
      var i := if s.main.Joining? then s.main.i else s.watch.i;
      assert !s.shards[i].Joinable();
      assert Enabled(c, s, Work(i, |s.shards[i].threads| - 1));
    }
  }

  /** What the workers of stopped shards have left to do. */
  function ToDrain(sh: Shard): nat {
    5 * |sh.items|
    + if sh.threads == [] then 0
      else
        match sh.threads[|sh.threads| - 1]
        case Exited(_) => 0
        case Empty(_) => 1
        case AtPop => 2
        case AtSize => 3
        case AtLoop => 4
        case Finishing => 5
        case Working(_) => 6
  }

  function TotalToDrain(shards: seq<Shard>): nat
    decreases |shards|
  {
    if shards == [] then 0 else TotalToDrain(shards[..|shards| - 1]) + ToDrain(shards[|shards| - 1])
  }

  lemma {:induction false} DrainUpdate(shards: seq<Shard>, i: nat, sh: Shard)
    requires i < |shards|
    ensures TotalToDrain(shards[i := sh]) == TotalToDrain(shards) + ToDrain(sh) - ToDrain(shards[i])
    decreases |shards|
  {
    hide ToDrain;
    var n := |shards| - 1;
    if i == n {
      assert shards[i := sh][..n] == shards[..n];
    } else {
      assert shards[i := sh][..n] == shards[..n][i := sh];
      DrainUpdate(shards[..n], i, sh);
    }
  }

  lemma WorkDrains(sh: Shard, t: nat)
    requires t == |sh.threads| - 1 && !sh.threads[t].Exited? && !sh.running
    ensures ToDrain(WorkerStep(sh, t)) < ToDrain(sh) && !WorkerStep(sh, t).running
  {}

  /** What is left between closing the queues and the return of shutdown. */
  ghost function ToJoin(s: State): nat {
    TotalToDrain(s.shards) + (match s.main case Joining(i) => (if i <= |s.shards| then |s.shards| - i + 1 else 1) case _ => 0)
  }

  lemma JoinStep(c: Config, s: State, a: Action)
    requires Inv(c, s) && InService(c, s) && s.main.Joining? && Enabled(c, s, a) && (a.Work? || a.MainStep?)
    ensures ToJoin(Apply(c, s, a)) < ToJoin(s) && (Apply(c, s, a).main.Joining? || Apply(c, s, a).main.Down?)
  {
    hide Histories, Phases, Sampled, Alive, WorkerStep, ToDrain, TotalToDrain;
    match a
    case Work(i, t) =>
      OneShard(c, s.shards, s.acceptedLog, s.handledLog, i);
      OnlyLastRuns(c, s.shards[i], t);
      WorkDrains(s.shards[i], t);
      DrainUpdate(s.shards, i, WorkerStep(s.shards[i], t));
    case _ =>
  }

  /** Once the queues are closed, at most five steps per queued event and a bounded rest pass,
      producers' steps aside, before shutdown returns: such a run is no longer than `ToJoin`. */
  lemma {:induction false} ShutdownFinishes(c: Config, s: State, steps: seq<Action>, s': State)
    requires Inv(c, s) && InService(c, s) && s.main.Joining? && Run(c, s, steps, s')
    requires forall k :: 0 <= k < |steps| ==> steps[k].Work? || steps[k].MainStep?
    ensures |steps| + ToJoin(s') <= ToJoin(s)
    decreases |steps|
  {
    hide Apply, Histories, Phases, Sampled, InService, ToJoin, Enabled;
    if steps != [] {
      var s1 := Apply(c, s, steps[0]);
      StepKeeps(c, s, steps[0]);
      InServiceStep(c, s, steps[0]);
      JoinStep(c, s, steps[0]);
      if s1.main.Joining? {
        ShutdownFinishes(c, s1, steps[1..], s');
      } else {
        NothingRunsAfterShutdown(c, s1, steps[1..], s');
        DownTakesNoMainStep(c, s1, steps[1..], s');
      }
    }
  }

  lemma DownTakesNoMainStep(c: Config, s: State, steps: seq<Action>, s': State)
    requires Inv(c, s) && s.main.Down? && Run(c, s, steps, s')
    requires forall k :: 0 <= k < |steps| ==> steps[k].Work? || steps[k].MainStep?
    ensures steps == [] && s' == s
  {
    hide Apply, Histories, Sampled, Phases;
    if steps != [] {
      DownIsQuiet(c, s, steps[0]);
      assert false;
    }
  }

  // ---- Counters ----

  /** A step by which shard i's worker finds nothing and goes on. */
  predicate IdlePoll(s: State, a: Action, i: nat) {
    && a.Work? && a.i == i && i < |s.shards| && a.t < |s.shards[i].threads|
    && s.shards[i].threads[a.t].Empty? && s.shards[i].running
  }

  ghost function IdlePolls(c: Config, s: State, steps: seq<Action>, s': State, i: nat): nat
    requires Inv(c, s) && Run(c, s, steps, s')
    decreases |steps|
  {
    if steps == [] then 0
    else
      StepKeeps(c, s, steps[0]);
      (if IdlePoll(s, steps[0], i) then 1 else 0) + IdlePolls(c, Apply(c, s, steps[0]), steps[1..], s', i)
  }

  lemma StepBeats(c: Config, s: State, a: Action, i: nat)
    requires Inv(c, s) && Enabled(c, s, a) && i < |s.shards|
    ensures var sh, s' := s.shards[i], Apply(c, s, a);
      && |s'.shards| == |s.shards|
      && s'.shards[i].heartbeat - s'.shards[i].processed
           == sh.heartbeat - sh.processed + if IdlePoll(s, a, i) then 1 else 0
  {
    hide Histories, Phases, Sampled, ShardFor, Push, WorkerStep, Spawn, Shard.Joinable;
    match a
    case TryPush(id) => PushBeats(c, s.shards[ShardFor(c, s.calls[id].ev)], s.calls[id].ev);
    case Work(k, t) => WorkerBeats(s.shards[k], t);
    case WatchStep =>
      if s.watch.Stopping? {
        SpawnBeats(s.shards[s.watch.i]);
      }
    case MainStep =>
      if s.main.Starting? && s.main.i < |s.shards| {
        SpawnBeats(s.shards[s.main.i]);
      }
    case _ =>
  }

  lemma PushBeats(c: Config, sh: Shard, ev: Event)
    requires c.capacity >= 1
    ensures Push(c, sh, ev).heartbeat == sh.heartbeat && Push(c, sh, ev).processed == sh.processed
  {
    hide PushOutcome;
  }

  lemma SpawnBeats(sh: Shard)
    ensures Spawn(sh).heartbeat == sh.heartbeat && Spawn(sh).processed == sh.processed
  {}

  lemma WorkerBeats(sh: Shard, t: nat)
    requires t < |sh.threads| && !sh.threads[t].Exited?
    ensures var sh' := WorkerStep(sh, t);
      sh'.heartbeat - sh'.processed == sh.heartbeat - sh.processed + if sh.threads[t].Empty? && sh.running then 1 else 0
  {}

  lemma {:induction false} RunBeats(c: Config, s: State, steps: seq<Action>, s': State, i: nat)
    requires Inv(c, s) && Run(c, s, steps, s') && i < |s.shards|
    ensures |s'.shards| == |s.shards|
    ensures s'.shards[i].heartbeat - s'.shards[i].processed
         == s.shards[i].heartbeat - s.shards[i].processed + IdlePolls(c, s, steps, s', i)
    decreases |steps|
  {
    hide Apply, Histories, Phases, Sampled, Enabled, IdlePoll;
    if steps != [] {
      StepKeeps(c, s, steps[0]);
      StepBeats(c, s, steps[0], i);
      RunBeats(c, Apply(c, s, steps[0]), steps[1..], s', i);
    }
  }

  /** A shard's heartbeat counts the events it processed and the times it found nothing and went
      on, so a worker that does either beats. */
  lemma HeartbeatIsWork(c: Config, steps: seq<Action>, s: State, i: nat)
    requires ConfigOk(c) && Inv(c, InitState(c)) && Run(c, InitState(c), steps, s) && i < c.shards
    ensures |s.shards| == c.shards
    ensures s.shards[i].heartbeat == s.shards[i].processed + IdlePolls(c, InitState(c), steps, s, i)
  {
    hide Inv, Run, IdlePolls;
    assert |InitState(c).shards| == c.shards && InitState(c).shards[i] == NEW_SHARD;
    RunBeats(c, InitState(c), steps, s, i);
  }

  function TotalThreads(shards: seq<Shard>): nat
    decreases |shards|
  {
    if shards == [] then 0 else TotalThreads(shards[..|shards| - 1]) + |shards[|shards| - 1].threads|
  }

  lemma {:induction false} ThreadsUpdate(shards: seq<Shard>, i: nat, sh: Shard)
    requires i < |shards|
    ensures TotalThreads(shards[i := sh]) == TotalThreads(shards) + |sh.threads| - |shards[i].threads|
    decreases |shards|
  {
    var n := |shards| - 1;
    if i == n {
      assert shards[i := sh][..n] == shards[..n];
    } else {
      assert shards[i := sh][..n] == shards[..n][i := sh];
      ThreadsUpdate(shards[..n], i, sh);
    }
  }

  lemma {:induction false} NoThreads(n: nat)
    ensures TotalThreads(seq(n, i => NEW_SHARD)) == 0
    decreases n
  {
    if n > 0 {
      var s := seq(n, i => NEW_SHARD);
      assert s[..n - 1] == seq(n - 1, i => NEW_SHARD);
      NoThreads(n - 1);
    }
  }

  /** A step by which start gives a shard its first worker. */
  predicate Starts(s: State, a: Action) {
    a.MainStep? && s.main.Starting? && s.main.i < |s.shards|
  }

  ghost function Started(c: Config, s: State, steps: seq<Action>, s': State): nat
    requires Inv(c, s) && Run(c, s, steps, s')
    decreases |steps|
  {
    if steps == [] then 0
    else
      StepKeeps(c, s, steps[0]);
      (if Starts(s, steps[0]) then 1 else 0) + Started(c, Apply(c, s, steps[0]), steps[1..], s')
  }

  lemma StepThreads(c: Config, s: State, a: Action)
    requires Inv(c, s) && Enabled(c, s, a)
    ensures var s' := Apply(c, s, a);
      TotalThreads(s'.shards) - s'.restarts == TotalThreads(s.shards) - s.restarts + if Starts(s, a) then 1 else 0
  {
    hide Histories, Phases, Sampled, ShardFor, Push, WorkerStep, Spawn, Shard.Joinable, TotalThreads;
    match a
    case TryPush(id) =>
      var i := ShardFor(c, s.calls[id].ev);
      PushStaysAlive(c, s.shards[i], s.calls[id].ev);
      ThreadsUpdate(s.shards, i, Push(c, s.shards[i], s.calls[id].ev));
    case Work(i, t) =>
      SameNumber(s.shards[i], t);
      ThreadsUpdate(s.shards, i, WorkerStep(s.shards[i], t));
    case WatchStep => WatchThreads(c, s);
    case MainStep =>
      if s.main.Starting? && s.main.i < |s.shards| {
        OneMore(s.shards[s.main.i]);
        ThreadsUpdate(s.shards, s.main.i, Spawn(s.shards[s.main.i]));
      } else if s.main.Closing? && s.main.i < |s.shards| {
        ThreadsUpdate(s.shards, s.main.i, s.shards[s.main.i].(running := false, closed := true));
      }
    case _ =>
  }

  lemma WatchThreads(c: Config, s: State)
    requires Inv(c, s) && Enabled(c, s, WatchStep)
    ensures var s' := Apply(c, s, WatchStep);
      TotalThreads(s'.shards) - s'.restarts == TotalThreads(s.shards) - s.restarts
  {
    hide Histories, Phases, Sampled, Spawn, Shard.Joinable, TotalThreads;
    match s.watch
    case At(i) =>
      if i < |s.shards| {
        ThreadsUpdate(s.shards, i, s.shards[i].(running := false));
      }
    case Stopping(i) =>
      OneMore(s.shards[i]);
      ThreadsUpdate(s.shards, i, Spawn(s.shards[i]));
    case _ =>
  }

  lemma SameNumber(sh: Shard, t: nat)
    requires t < |sh.threads| && !sh.threads[t].Exited?
    ensures |WorkerStep(sh, t).threads| == |sh.threads|
  {}

  lemma OneMore(sh: Shard)
    ensures |Spawn(sh).threads| == |sh.threads| + 1
  {}

  lemma {:induction false} RunThreads(c: Config, s: State, steps: seq<Action>, s': State)
    requires Inv(c, s) && Run(c, s, steps, s')
    ensures TotalThreads(s'.shards) - s'.restarts == TotalThreads(s.shards) - s.restarts + Started(c, s, steps, s')
    decreases |steps|
  {
    hide Apply, Histories, Phases, Sampled, Enabled, TotalThreads, Starts;
    if steps != [] {
      StepKeeps(c, s, steps[0]);
      StepThreads(c, s, steps[0]);
      RunThreads(c, Apply(c, s, steps[0]), steps[1..], s');
    }
  }

  /** Every worker thread was made by start or by a counted restart. */
  lemma ThreadsAreCounted(c: Config, steps: seq<Action>, s: State)
    requires ConfigOk(c) && Inv(c, InitState(c)) && Run(c, InitState(c), steps, s)
    ensures TotalThreads(s.shards) == Started(c, InitState(c), steps, s) + s.restarts
  {
    hide Run, Inv, Started;
    NoThreads(c.shards);
    RunThreads(c, InitState(c), steps, s);
  }

  /** The sampling policy takes a ticket per event: numbers divisible by the rate go on to be
      pushed, all others are rejected; the other policies push at once. */
  lemma TicketsDecide(c: Config, s: State, id: nat, ev: Event)
    requires Inv(c, s)
    ensures Enabled(c, s, Begin(id, ev)) ==>
      Apply(c, s, Begin(id, ev)).calls == s.calls[id := if c.policy == Sample then Sampling(ev) else Trying(ev)]
    ensures Enabled(c, s, Ticket(id)) ==>
      var s' := Apply(c, s, Ticket(id));
      && s'.sampleCounter == s.sampleCounter + 1
      && (s.sampleCounter % c.sampleRate == 0 ==> s'.calls == s.calls[id := Trying(s.calls[id].ev)] && s'.sampled == s.sampled + 1)
      && (s.sampleCounter % c.sampleRate != 0 ==> s'.calls == s.calls[id := Rejected] && s'.sampled == s.sampled)
  {
    hide Histories, Phases, Sampled;
  }

  // ---- Nothing is invented ----

  /** The events with which ingest was called. */
  function Begun(steps: seq<Action>): set<Event> {
    set k | 0 <= k < |steps| && steps[k].Begin? :: steps[k].ev
  }

  ghost predicate From(s: State, events: set<Event>) {
    && (forall id :: id in s.calls && !s.calls[id].Rejected? ==> s.calls[id].ev in events)
    && (forall k :: 0 <= k < |s.acceptedLog| ==> s.acceptedLog[k] in events)
  }

  lemma StepFrom(c: Config, s: State, a: Action, events: set<Event>)
    requires Inv(c, s) && Enabled(c, s, a) && From(s, events)
    ensures From(Apply(c, s, a), if a.Begin? then events + {a.ev} else events)
  {
    hide Histories, Phases, Sampled, ShardFor, Push, PushOutcome, WorkerStep, Spawn, Shard.Joinable;
  }

  lemma {:induction false} RunFrom(c: Config, s: State, steps: seq<Action>, s': State, events: set<Event>)
    requires Inv(c, s) && Run(c, s, steps, s') && From(s, events)
    ensures From(s', events + Begun(steps))
    decreases |steps|
  {
    hide Apply, Histories, Phases, Sampled, Enabled, From, Begun;
    if steps == [] {
      NoneBegun();
      assert events + Begun(steps) == events;
    } else {
      var now := if steps[0].Begin? then events + {steps[0].ev} else events;
      StepKeeps(c, s, steps[0]);
      StepFrom(c, s, steps[0], events);
      RunFrom(c, Apply(c, s, steps[0]), steps[1..], s', now);
      BegunFirst(events, steps);
    }
  }

  lemma NoneBegun()
    ensures Begun([]) == {}
  {}

  lemma BegunFirst(events: set<Event>, steps: seq<Action>)
    requires steps != []
    ensures (if steps[0].Begin? then events + {steps[0].ev} else events) + Begun(steps[1..]) == events + Begun(steps)
  {
    forall ev | ev in Begun(steps) ensures ev in Begun(steps[1..]) || (steps[0].Begin? && ev == steps[0].ev) {
      var k :| 0 <= k < |steps| && steps[k].Begin? && steps[k].ev == ev;
      assert k > 0 ==> steps[1..][k - 1] == steps[k];
    }
  }

  /** Every accepted event is one with which ingest was called. */
  lemma AcceptedWereIngested(c: Config, steps: seq<Action>, s: State, k: nat)
    requires ConfigOk(c) && Inv(c, InitState(c)) && Run(c, InitState(c), steps, s) && k < |s.acceptedLog|
    ensures s.acceptedLog[k] in Begun(steps)
  {
    hide Run, Inv;
    RunFrom(c, InitState(c), steps, s, {});
    assert {} + Begun(steps) == Begun(steps);
  }
}
