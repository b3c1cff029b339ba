/** ShardedIDS of include/ids_sharded.hpp as a state machine: producers in ingest, worker
    threads, the watchdog and the controlling thread take atomic steps in any order. Each
    step is what one thread does between two accesses to shared state. */
module Sharded {
  import opened BoundedQueue
  import opened QueueHistory
  import opened Subsequences

  // ---- Configuration and events ----

  datatype Event = Event(id: nat, source: string, session: Option<string>, user: Option<string>, rateHz: real)

  datatype Policy = Drop | Priority | Block | Sample

  datatype Config = Config(
    shards: nat, capacity: nat, policy: Policy, keepAbove: real, sampleRate: nat,
    hashKey: string, hash: string -> nat, maxMissed: nat, autoRestart: bool)

  ghost predicate ConfigOk(c: Config) {
    1 <= c.shards <= 256 && c.capacity >= 1 && c.sampleRate >= 1
  }

  function RoutingKey(c: Config, ev: Event): string {
    if c.hashKey == "session" then (if ev.session.Some? then ev.session.value else ev.source)
    else if c.hashKey == "user" then (if ev.user.Some? then ev.user.value else ev.source)
    else ev.source
  }

  /** The hash is cut to 32 bits before the remainder is taken. */
  function ShardOfKey(c: Config, key: string): (i: nat)
    requires c.shards > 0
    ensures i < c.shards
  {
    (c.hash(key) % 0x1_0000_0000) % c.shards
  }

  function ShardFor(c: Config, ev: Event): (i: nat)
    requires c.shards > 0
    ensures i < c.shards
  {
    ShardOfKey(c, RoutingKey(c, ev))
  }

  /** The fast anomaly estimate of the Priority policy. */
  function Estimate(ev: Event): real {
    if ev.rateHz > 5000.0 then 0.7 else 0.1
  }

  function PushOutcome(c: Config, size: nat, ev: Event): (o: Outcome)
    ensures o.Accepted? ==> size < c.capacity
    ensures o.AcceptedByEviction? ==> size >= c.capacity && c.policy == Priority
  {
    if c.policy == Priority then PriorityPushOutcome(size, c.capacity, Estimate(ev), c.keepAbove)
    else TryPushOutcome(size, c.capacity)
  }

  // ---- One shard ----

  /** Where a worker thread is in its loop. `sawAll` counts the events ever enqueued at the
      moment the thread last found the queue empty. */
  datatype Thread =
    | AtLoop                        // about to read `running` in the loop condition
    | AtSize                        // running was false: about to read the queue size
    | AtPop
    | Empty(sawAll: nat)            // pop gave nothing: about to read `running` again
    | Working(ev: Event)            // popped, ingest not done
    | Finishing                     // ingested, counters not bumped
    | Exited(sawAll: nat)

  /** A shard with its history: `enqueued` in acceptance order, `handled` in ingest order. */
  datatype Shard = Shard(
    items: seq<Event>, drops: nat, closed: bool, running: bool, threads: seq<Thread>,
    processed: nat, heartbeat: nat,
    enqueued: seq<Event>, handled: seq<Event>, evicted: nat)
  {
    function InFlight(): seq<Event> {
      if threads != [] && threads[|threads| - 1].Working? then [threads[|threads| - 1].ev] else []
    }

    function Busy(): nat {
      if threads != [] && (threads[|threads| - 1].Working? || threads[|threads| - 1].Finishing?) then 1 else 0
    }

    /** How many accepted events have left the queue. */
    function Gone(): int {
      |enqueued| - |items|
    }

    /** join() on the shard's std::thread returns. */
    predicate Joinable() {
      threads == [] || threads[|threads| - 1].Exited?
    }
  }

  const NEW_SHARD := Shard([], 0, false, false, [], 0, 0, [], [], 0)

  function Push(c: Config, s: Shard, ev: Event): Shard
    requires c.capacity >= 1
  {
    var o := PushOutcome(c, |s.items|, ev);
    var s' := s.(items := Pushed(s.items, ev, o),
                 drops := s.drops + (if c.policy == Priority && !o.Accepted? then 1 else 0),
                 evicted := s.evicted + (if o.AcceptedByEviction? then 1 else 0));
    if o.Ok() then s'.(enqueued := s.enqueued + [ev]) else s'
  }

  function Spawn(s: Shard): Shard {
    s.(running := true, threads := s.threads + [AtLoop])
  }

  function SetThread(s: Shard, t: nat, pc: Thread): Shard
    requires t < |s.threads|
  {
    s.(threads := s.threads[t := pc])
  }

  /** One step of the worker loop by thread t. */
  function WorkerStep(s: Shard, t: nat): Shard
    requires t < |s.threads| && !s.threads[t].Exited?
  {
    match s.threads[t]
    case AtLoop => SetThread(s, t, if s.running then AtPop else AtSize)
    case AtSize => SetThread(s, t, if |s.items| > 0 then AtPop else Exited(|s.enqueued|))
    case AtPop =>
      if s.items == [] then SetThread(s, t, Empty(|s.enqueued|))
      else SetThread(s.(items := s.items[1..]), t, Working(s.items[0]))
    case Empty(sawAll) =>
      if s.running then SetThread(s.(heartbeat := s.heartbeat + 1), t, AtLoop) else SetThread(s, t, Exited(sawAll))
    case Working(ev) => SetThread(s.(handled := s.handled + [ev]), t, Finishing)
    case Finishing => SetThread(s.(processed := s.processed + 1, heartbeat := s.heartbeat + 1), t, AtLoop)
  }

  ghost predicate ThreadsInv(s: Shard) {
    && (forall t :: 0 <= t < |s.threads| - 1 ==> s.threads[t].Exited?)
    && (forall t :: 0 <= t < |s.threads| && (s.threads[t].Exited? || s.threads[t].Empty?) ==>
          s.threads[t].sawAll <= s.Gone())
    && (s.threads != [] && (s.threads[|s.threads| - 1].Exited? || s.threads[|s.threads| - 1].Empty?) ==>
          (s.items == [] <==> |s.enqueued| == s.threads[|s.threads| - 1].sawAll))
    && (s.threads == [] ==> s.handled == [] && (s.items == [] <==> s.enqueued == []))
  }

  ghost predicate ShardInv(c: Config, s: Shard) {
    && |s.items| <= c.capacity
    && HistoryInv(s.items, s.enqueued, s.handled + s.InFlight(), s.evicted)
    && |s.handled + s.InFlight()| == s.processed + s.Busy()
    && (c.policy != Priority ==> s.evicted == 0)
    && ThreadsInv(s)
  }

  lemma NewShardInv(c: Config)
    ensures ShardInv(c, NEW_SHARD)
  {
    hide Subseq;
    SubseqEmpty<Event>([]);
    assert NEW_SHARD.handled + NEW_SHARD.InFlight() == [];
    assert NEW_SHARD.enqueued[..0] == [];
  }

  lemma PushKeeps(c: Config, s: Shard, ev: Event)
    requires ConfigOk(c) && ShardInv(c, s)
    ensures ShardInv(c, Push(c, s, ev))
  {
    hide HistoryInv, PushOutcome, ThreadsInv;
    HistoryPush(s.items, s.enqueued, s.handled + s.InFlight(), s.evicted, ev);
    HistorySize(s.items, s.enqueued, s.handled + s.InFlight(), s.evicted);
    PushKeepsThreads(c, s, ev);
    assert Push(c, s, ev).InFlight() == s.InFlight();
  }

  lemma PushKeepsThreads(c: Config, s: Shard, ev: Event)
    requires c.capacity >= 1 && ThreadsInv(s)
    ensures ThreadsInv(Push(c, s, ev))
  {
    hide PushOutcome;
  }

  lemma SpawnKeeps(c: Config, s: Shard)
    requires ShardInv(c, s) && s.Joinable()
    ensures ShardInv(c, Spawn(s))
  {
    hide HistoryInv;
    assert Spawn(s).InFlight() == s.InFlight();
  }

  lemma WorkerStepKeeps(c: Config, s: Shard, t: nat)
    requires ShardInv(c, s) && t < |s.threads| && !s.threads[t].Exited?
    ensures ShardInv(c, WorkerStep(s, t)) && WorkerStep(s, t).enqueued == s.enqueued
  {
    hide HistoryInv;
    assert t == |s.threads| - 1;
    HistorySize(s.items, s.enqueued, s.handled + s.InFlight(), s.evicted);
    var s' := WorkerStep(s, t);
    match s.threads[t]
    case AtPop =>
      if s.items != [] {
        HistoryPop(s.items, s.enqueued, s.handled + s.InFlight(), s.evicted);
        assert s.handled + s.InFlight() + [s.items[0]] == s'.handled + s'.InFlight();
      }
    case Working(ev) =>
      assert s'.handled + s'.InFlight() == s.handled + s.InFlight();
    case _ =>
  }

  // ---- The whole pipeline ----

  /** One ingest call between its steps. */
  datatype Call =
    | Sampling(ev: Event)           // Sample policy: about to take a ticket
    | Trying(ev: Event)             // about to push
    | Rejected                      // not accepted: about to count the drop

  datatype Watch = Off | Asleep | At(i: nat) | Stopping(i: nat) | Ended

  datatype Main = Built | Starting(i: nat) | Serving | WatchdogStop | Closing(i: nat) | Joining(i: nat) | Down

  datatype State = State(
    shards: seq<Shard>, calls: map<nat, Call>, ingested: nat, dropped: nat, sampleCounter: nat, sampled: nat,
    main: Main, watchFlag: bool, watch: Watch, last: seq<nat>, missed: seq<nat>, restarts: nat,
    acceptedLog: seq<Event>, handledLog: seq<Event>)

  datatype Action =
    | Begin(id: nat, ev: Event)     // a producer enters ingest and bumps the counter
    | Ticket(id: nat)
    | TryPush(id: nat)
    | CountDrop(id: nat)
    | Work(i: nat, t: nat)          // thread t of shard i takes one step
    | WatchStep
    | StartCall
    | ShutdownCall
    | MainStep

  function InitState(c: Config): State {
    State(seq(c.shards, i => NEW_SHARD), map[], 0, 0, 0, 0, Built, false, Off,
          seq(c.shards, i => 0), seq(c.shards, i => 0), 0, [], [])
  }

  predicate Enabled(c: Config, s: State, a: Action) {
    match a
    case Begin(id, ev) => id !in s.calls
    case Ticket(id) => id in s.calls && s.calls[id].Sampling?
    case TryPush(id) => id in s.calls && s.calls[id].Trying?
    case CountDrop(id) => id in s.calls && s.calls[id].Rejected?
    case Work(i, t) => i < |s.shards| && t < |s.shards[i].threads| && !s.shards[i].threads[t].Exited?
    case WatchStep =>
      || s.watch.Asleep?
      || s.watch.At?
      || (s.watch.Stopping? && s.watch.i < |s.shards| && s.shards[s.watch.i].Joinable())
    case StartCall => s.main.Built?
    case ShutdownCall => s.main.Built? || s.main.Serving?
    case MainStep =>
      || s.main.Starting?
      || (s.main.WatchdogStop? && (s.watch.Off? || s.watch.Ended?))
      || s.main.Closing?
      || (s.main.Joining? && (s.main.i < |s.shards| ==> s.shards[s.main.i].Joinable()))
  }

  function SetShard(s: State, i: nat, sh: Shard): State
    requires i < |s.shards|
  {
    s.(shards := s.shards[i := sh])
  }

  function DoPush(c: Config, s: State, id: nat, ev: Event): State
    requires ConfigOk(c) && |s.shards| == c.shards
  {
    var i := ShardFor(c, ev);
    var o := PushOutcome(c, |s.shards[i].items|, ev);
    var s' := SetShard(s, i, Push(c, s.shards[i], ev));
    if o.Ok() then s'.(calls := s.calls - {id}, acceptedLog := s.acceptedLog + [ev])
    else if c.policy == Block then s'
    else s'.(calls := s.calls[id := Rejected])
  }

  function DoWork(s: State, i: nat, t: nat): State
    requires i < |s.shards| && t < |s.shards[i].threads| && !s.shards[i].threads[t].Exited?
  {
    var s' := SetShard(s, i, WorkerStep(s.shards[i], t));
    var pc := s.shards[i].threads[t];
    if pc.Working? then s'.(handledLog := s.handledLog + [pc.ev]) else s'
  }

  function DoWatch(c: Config, s: State): State
    requires Enabled(c, s, WatchStep) && |s.last| == |s.missed| == |s.shards|
  {
    match s.watch
    case Asleep => s.(watch := if s.watchFlag then At(0) else Ended)
    case At(i) =>
      if i >= |s.shards| then s.(watch := Asleep)
      else
        var beat := s.shards[i].heartbeat;
        if beat == s.last[i] then
          if s.missed[i] + 1 >= c.maxMissed then
            // restartShard: clear `running`, then wait in join
            SetShard(s, i, s.shards[i].(running := false))
              .(missed := s.missed[i := s.missed[i] + 1], watch := Stopping(i))
          else s.(missed := s.missed[i := s.missed[i] + 1], watch := At(i + 1))
        else s.(missed := s.missed[i := 0], last := s.last[i := beat], watch := At(i + 1))
    case Stopping(i) =>
      SetShard(s, i, Spawn(s.shards[i]))
        .(restarts := s.restarts + 1, missed := s.missed[i := 0], watch := At(i + 1))
    case _ => s
  }

  function DoMain(c: Config, s: State): State
    requires Enabled(c, s, MainStep)
  {
    match s.main
    case Starting(i) =>
      if i < |s.shards| then SetShard(s, i, Spawn(s.shards[i])).(main := Starting(i + 1))
      else if c.autoRestart then s.(main := Serving, watchFlag := true, watch := Asleep)
      else s.(main := Serving)
    case WatchdogStop => s.(main := Closing(0))
    case Closing(i) =>
      if i < |s.shards| then SetShard(s, i, s.shards[i].(running := false, closed := true)).(main := Closing(i + 1))
      else s.(main := Joining(0))
    case Joining(i) => if i < |s.shards| then s.(main := Joining(i + 1)) else s.(main := Down)
    case _ => s
  }

  function Apply(c: Config, s: State, a: Action): State
    requires ConfigOk(c) && Enabled(c, s, a) && |s.last| == |s.missed| == |s.shards| == c.shards
  {
    match a
    case Begin(id, ev) =>
      s.(ingested := s.ingested + 1, calls := s.calls[id := if c.policy == Sample then Sampling(ev) else Trying(ev)])
    case Ticket(id) =>
      s.(sampleCounter := s.sampleCounter + 1,
         sampled := s.sampled + (if s.sampleCounter % c.sampleRate != 0 then 0 else 1),
         calls := s.calls[id := if s.sampleCounter % c.sampleRate != 0 then Rejected else Trying(s.calls[id].ev)])
    case TryPush(id) => DoPush(c, s, id, s.calls[id].ev)
    case CountDrop(id) => s.(dropped := s.dropped + 1, calls := s.calls - {id})
    case Work(i, t) => DoWork(s, i, t)
    case WatchStep => DoWatch(c, s)
    case StartCall => s.(main := Starting(0))
    case ShutdownCall => s.(main := WatchdogStop, watchFlag := false)
    case MainStep => DoMain(c, s)
  }

  // ---- Invariant ----

  function OfKey(c: Config, key: string): Event -> bool {
    ev => RoutingKey(c, ev) == key
  }

  function TotalEnqueued(shards: seq<Shard>): nat
    decreases |shards|
  {
    if shards == [] then 0 else TotalEnqueued(shards[..|shards| - 1]) + |shards[|shards| - 1].enqueued|
  }

  /** Everything a shard ever accepted was routed to it, what its worker holds included. */
  ghost predicate Routed(c: Config, shards: seq<Shard>)
    requires c.shards > 0
  {
    && (forall i, k :: 0 <= i < |shards| && 0 <= k < |shards[i].enqueued| ==> ShardFor(c, shards[i].enqueued[k]) == i)
    && (forall i, k :: 0 <= i < |shards| && 0 <= k < |shards[i].InFlight()| ==> ShardFor(c, shards[i].InFlight()[k]) == i)
  }

  /** Restricted to one key, the pipeline's logs are those of the key's shard. */
  ghost predicate LogsAgree(c: Config, shards: seq<Shard>, accepted: seq<Event>, handled: seq<Event>)
    requires c.shards > 0 && |shards| == c.shards
  {
    forall key ::
      && Filter(OfKey(c, key), accepted) == Filter(OfKey(c, key), shards[ShardOfKey(c, key)].enqueued)
      && Filter(OfKey(c, key), handled) == Filter(OfKey(c, key), shards[ShardOfKey(c, key)].handled)
  }

  /** The shards are sound one by one, and together they account for the two logs. */
  ghost predicate Histories(c: Config, shards: seq<Shard>, accepted: seq<Event>, handled: seq<Event>) {
    && ConfigOk(c) && |shards| == c.shards
    && (forall i :: 0 <= i < |shards| ==> ShardInv(c, shards[i]))
    && Routed(c, shards)
    && LogsAgree(c, shards, accepted, handled)
    && |accepted| == TotalEnqueued(shards)
  }

  ghost predicate Phases(s: State) {
    && (s.main.Built? ==> s.watch.Off? && forall i :: 0 <= i < |s.shards| ==> s.shards[i].threads == [])
    && (s.main.Starting? ==> s.watch.Off? && forall i :: s.main.i <= i < |s.shards| ==> s.shards[i].threads == [])
    && (s.main.Closing? || s.main.Joining? || s.main.Down? ==> s.watch.Off? || s.watch.Ended?)
    && (s.main.Joining? ==> forall i :: 0 <= i < s.main.i && i < |s.shards| ==> s.shards[i].Joinable())
    && (s.main.Down? ==> forall i :: 0 <= i < |s.shards| ==> s.shards[i].Joinable())
    && (s.watch.Stopping? ==> s.watch.i < |s.shards|)
  }

  ghost predicate Inv(c: Config, s: State) {
    && ConfigOk(c)
    && |s.last| == |s.missed| == |s.shards| == c.shards
    && Histories(c, s.shards, s.acceptedLog, s.handledLog)
    && s.ingested == s.dropped + |s.acceptedLog| + |s.calls|
    && Phases(s)
    && s.sampled == Sampled(c, s.sampleCounter)
  }

  /** Of n tickets, those numbered 0, rate, 2 * rate, ... pass. */
  function Sampled(c: Config, n: nat): nat
    requires c.sampleRate >= 1
  {
    if n == 0 then 0 else (n - 1) / c.sampleRate + 1
  }

  lemma SampledNext(c: Config, n: nat)
    requires c.sampleRate >= 1
    ensures Sampled(c, n + 1) == Sampled(c, n) + if n % c.sampleRate != 0 then 0 else 1
  {
    if n > 0 {
      DividePredecessor(n, c.sampleRate);
    }
  }

  lemma DividePredecessor(n: nat, r: nat)
    requires n > 0 && r > 0
    ensures n / r == (n - 1) / r + if n % r != 0 then 0 else 1
  {
    var q, m := n / r, n % r;
    assert n == q * r + m;
    if m != 0 {
      QuotientIs(n - 1, r, q, m - 1);
    } else {
      assert n == (q - 1) * r + r;
      QuotientIs(n - 1, r, q - 1, r - 1);
    }
  }

  lemma QuotientIs(x: int, r: nat, q: int, m: int)
    requires 0 <= m < r && x == q * r + m
    ensures x / r == q
  {
    assert x == (x / r) * r + x % r;
    assert (x / r - q) * r == m - x % r;
    MultipleGrows(x / r - q, r);
  }

  lemma MultipleGrows(d: int, r: int)
    requires r > 0
    ensures d >= 1 ==> d * r >= r
    ensures d <= -1 ==> d * r <= -r
  {
    if d >= 1 {
      assert (d - 1) * r >= 0;
    } else if d <= -1 {
      assert (-1 - d) * r >= 0;
    }
  }

  // ---- The invariant holds initially and is kept ----

  lemma {:induction false} TotalZero(n: nat)
    ensures TotalEnqueued(seq(n, i => NEW_SHARD)) == 0
    decreases n
  {
    if n > 0 {
      var s := seq(n, i => NEW_SHARD);
      assert s[..n - 1] == seq(n - 1, i => NEW_SHARD);
      TotalZero(n - 1);
    }
  }

  lemma {:induction false} TotalUpdate(shards: seq<Shard>, i: nat, sh: Shard)
    requires i < |shards|
    ensures TotalEnqueued(shards[i := sh]) == TotalEnqueued(shards) + |sh.enqueued| - |shards[i].enqueued|
    decreases |shards|
  {
    var n := |shards| - 1;
    if i == n {
      assert shards[i := sh][..n] == shards[..n];
    } else {
      assert shards[i := sh][..n] == shards[..n][i := sh];
      TotalUpdate(shards[..n], i, sh);
    }
  }

  lemma InitInv(c: Config)
    requires ConfigOk(c)
    ensures Inv(c, InitState(c))
  {
    hide ShardInv;
    NewShardInv(c);
    TotalZero(c.shards);
    assert forall i :: 0 <= i < c.shards ==> InitState(c).shards[i].InFlight() == [];
  }

  /** A producer's steps around its push. */
  lemma CallActionKeeps(c: Config, s: State, a: Action)
    requires Inv(c, s) && Enabled(c, s, a) && (a.Begin? || a.Ticket? || a.CountDrop?)
    ensures Inv(c, Apply(c, s, a))
  {
    hide Histories, Sampled, Phases;
    var s' := Apply(c, s, a);
    PhasesIgnoreCalls(s, s');
    match a
    case CountDrop(id) =>
      assert s'.calls.Keys == s.calls.Keys - {id};
      assert |s'.calls| == |s.calls| - 1;
    case Begin(id, ev) =>
      assert s'.calls.Keys == s.calls.Keys + {id};
    case Ticket(id) =>
      assert s'.calls.Keys == s.calls.Keys;
      SampledNext(c, s.sampleCounter);
  }

  /** The controller's calls. */
  lemma ControlCallKeeps(c: Config, s: State, a: Action)
    requires Inv(c, s) && Enabled(c, s, a) && (a.StartCall? || a.ShutdownCall?)
    ensures Inv(c, Apply(c, s, a))
  {
    hide Histories, Sampled, Shard.Joinable;
  }

  lemma OneShard(c: Config, shards: seq<Shard>, accepted: seq<Event>, handled: seq<Event>, i: nat)
    requires Histories(c, shards, accepted, handled) && i < |shards|
    ensures ShardInv(c, shards[i])
    ensures forall k :: 0 <= k < |shards[i].enqueued| ==> ShardFor(c, shards[i].enqueued[k]) == i
    ensures forall k :: 0 <= k < |shards[i].InFlight()| ==> ShardFor(c, shards[i].InFlight()[k]) == i
  {
    hide ShardInv, LogsAgree, TotalEnqueued, ShardFor, Shard.InFlight;
  }

  /** Replacing shard i by one with the same history keeps what the logs say. */
  lemma SameHistoryKeeps(c: Config, shards: seq<Shard>, accepted: seq<Event>, handled: seq<Event>, i: nat, sh: Shard)
    requires Histories(c, shards, accepted, handled) && i < |shards|
    requires ShardInv(c, sh) && sh.enqueued == shards[i].enqueued && sh.handled == shards[i].handled
    requires forall k :: 0 <= k < |sh.InFlight()| ==> ShardFor(c, sh.InFlight()[k]) == i
    ensures Histories(c, shards[i := sh], accepted, handled)
  {
    hide ShardInv, Filter, TotalEnqueued, ShardFor, ShardOfKey, Shard.InFlight;
    TotalUpdate(shards, i, sh);
  }

  /** Appending one event to a log and to its shard's history keeps their agreement on a key. */
  lemma SnocAgrees(c: Config, log: seq<Event>, own: seq<Event>, ev: Event, key: string)
    requires c.shards > 0 && Filter(OfKey(c, key), log) == Filter(OfKey(c, key), own)
    ensures Filter(OfKey(c, key), log + [ev]) ==
            Filter(OfKey(c, key), if ShardFor(c, ev) == ShardOfKey(c, key) then own + [ev] else own)
  {
    hide Filter, ShardFor, ShardOfKey;
    FilterSnoc(OfKey(c, key), log, ev);
    FilterSnoc(OfKey(c, key), own, ev);
    RouteOfKey(c, ev, key);
  }

  /** What Push does to the history, by outcome. */
  lemma PushHistory(c: Config, s: Shard, ev: Event)
    requires c.capacity >= 1
    ensures Push(c, s, ev).handled == s.handled && Push(c, s, ev).InFlight() == s.InFlight()
    ensures Push(c, s, ev).enqueued == s.enqueued + (if PushOutcome(c, |s.items|, ev).Ok() then [ev] else [])
    ensures Push(c, s, ev).threads == s.threads
  {
    hide PushOutcome;
  }

  lemma PushActionKeeps(c: Config, s: State, id: nat)
    requires Inv(c, s) && Enabled(c, s, TryPush(id))
    ensures Inv(c, Apply(c, s, TryPush(id)))
  {
    hide *;
    PushFacts(c, s, id);
    var ev := s.calls[id].ev;
    PushShardKeeps(c, s.shards, s.acceptedLog, s.handledLog, ev);
    PushedPhases(c, s, ev);
    PushedCalls(s.calls, id);
    PushAssembles(c, s, id);
  }

  lemma PushFacts(c: Config, s: State, id: nat)
    requires Inv(c, s) && Enabled(c, s, TryPush(id))
    ensures id in s.calls && s.calls[id].Trying? && ConfigOk(c) && |s.shards| == c.shards
    ensures Histories(c, s.shards, s.acceptedLog, s.handledLog) && Phases(s)
  {
    hide Histories, Phases, Sampled;
  }

  lemma PushedCalls(calls: map<nat, Call>, id: nat)
    requires id in calls
    ensures |calls - {id}| == |calls| - 1 && |calls[id := Rejected]| == |calls|
  {
    assert (calls - {id}).Keys == calls.Keys - {id};
    assert calls[id := Rejected].Keys == calls.Keys;
  }

  /** The shard and the log after a push attempt. */
  lemma PushShardKeeps(c: Config, shards: seq<Shard>, accepted: seq<Event>, handled: seq<Event>, ev: Event)
    requires Histories(c, shards, accepted, handled) && ConfigOk(c) && |shards| == c.shards
    ensures var i := ShardFor(c, ev);
      Histories(c, shards[i := Push(c, shards[i], ev)],
                if PushOutcome(c, |shards[i].items|, ev).Ok() then accepted + [ev] else accepted, handled)
  {
    hide Histories, ShardInv, ShardFor, PushOutcome, Push, Shard.InFlight;
    var i := ShardFor(c, ev);
    OneShard(c, shards, accepted, handled, i);
    PushKeeps(c, shards[i], ev);
    PushHistory(c, shards[i], ev);
    if PushOutcome(c, |shards[i].items|, ev).Ok() {
      AcceptedKeeps(c, shards, accepted, handled, ev, Push(c, shards[i], ev));
    } else {
      assert Push(c, shards[i], ev).enqueued == shards[i].enqueued;
      SameHistoryKeeps(c, shards, accepted, handled, i, Push(c, shards[i], ev));
    }
  }

  lemma PushedPhases(c: Config, s: State, ev: Event)
    requires ConfigOk(c) && |s.shards| == c.shards && Phases(s)
    ensures var i := ShardFor(c, ev); Phases(SetShard(s, i, Push(c, s.shards[i], ev)))
  {
    hide ShardFor, Push;
    PushHistory(c, s.shards[ShardFor(c, ev)], ev);
  }

  lemma PushAssembles(c: Config, s: State, id: nat)
    requires Inv(c, s) && id in s.calls && s.calls[id].Trying? && ConfigOk(c) && |s.shards| == c.shards
    requires |s.calls - {id}| == |s.calls| - 1 && |s.calls[id := Rejected]| == |s.calls|
    requires var (ev, i) := (s.calls[id].ev, ShardFor(c, s.calls[id].ev));
      && Histories(c, s.shards[i := Push(c, s.shards[i], ev)],
                   if PushOutcome(c, |s.shards[i].items|, ev).Ok() then s.acceptedLog + [ev] else s.acceptedLog, s.handledLog)
      && Phases(SetShard(s, i, Push(c, s.shards[i], ev)))
    ensures Enabled(c, s, TryPush(id)) && Inv(c, Apply(c, s, TryPush(id)))
  {
    hide Histories, Phases, Sampled, Push, PushOutcome, ShardFor;
    var ev := s.calls[id].ev;
    PhasesIgnoreCalls(SetShard(s, ShardFor(c, ev), Push(c, s.shards[ShardFor(c, ev)], ev)), DoPush(c, s, id, ev));
  }

  /** The phases depend on the controller, the watchdog and the shards only. */
  lemma PhasesIgnoreCalls(s: State, s': State)
    requires Phases(s) && s'.main == s.main && s'.watch == s.watch && s'.shards == s.shards
    ensures Phases(s')
  {
    hide Shard.Joinable;
  }

  lemma AcceptedKeeps(c: Config, shards: seq<Shard>, accepted: seq<Event>, handled: seq<Event>, ev: Event, sh: Shard)
    requires Histories(c, shards, accepted, handled)
    requires var was := shards[ShardFor(c, ev)];
      && ShardInv(c, sh) && sh.handled == was.handled && sh.enqueued == was.enqueued + [ev]
      && sh.InFlight() == was.InFlight()
    ensures Histories(c, shards[ShardFor(c, ev) := sh], accepted + [ev], handled)
  {
    hide ShardInv, Filter, TotalEnqueued, ShardOfKey, ShardFor, Shard.InFlight, OfKey;
    var i := ShardFor(c, ev);
    TotalUpdate(shards, i, sh);
    forall key
      ensures Filter(OfKey(c, key), accepted + [ev]) == Filter(OfKey(c, key), shards[i := sh][ShardOfKey(c, key)].enqueued)
    {
      SnocAgrees(c, accepted, shards[ShardOfKey(c, key)].enqueued, ev, key);
    }
  }

  lemma WorkActionKeeps(c: Config, s: State, i: nat, t: nat)
    requires Inv(c, s) && Enabled(c, s, Work(i, t))
    ensures Inv(c, Apply(c, s, Work(i, t)))
  {
    hide Histories, ShardInv, Sampled, ShardFor, WorkerStep, Shard.InFlight, Shard.Gone;
    var sh := WorkerStep(s.shards[i], t);
    OneShard(c, s.shards, s.acceptedLog, s.handledLog, i);
    WorkerStepKeeps(c, s.shards[i], t);
    OnlyLastRuns(c, s.shards[i], t);
    WorkerHolds(c, s.shards[i], t);
    var pc := s.shards[i].threads[t];
    if pc.Working? {
      assert ShardFor(c, s.shards[i].InFlight()[0]) == i;
      HandledKeeps(c, s.shards, s.acceptedLog, s.handledLog, i, pc.ev, sh);
    } else {
      if sh.InFlight() != s.shards[i].InFlight() && sh.InFlight() != [] {
        assert ShardFor(c, s.shards[i].enqueued[s.shards[i].Gone()]) == i;
      }
      SameHistoryKeeps(c, s.shards, s.acceptedLog, s.handledLog, i, sh);
    }
  }

  lemma HandledKeeps(c: Config, shards: seq<Shard>, accepted: seq<Event>, handled: seq<Event>, i: nat, ev: Event, sh: Shard)
    requires Histories(c, shards, accepted, handled) && i < |shards| && ShardFor(c, ev) == i
    requires ShardInv(c, sh) && sh.handled == shards[i].handled + [ev] && sh.enqueued == shards[i].enqueued
    requires sh.InFlight() == []
    ensures Histories(c, shards[i := sh], accepted, handled + [ev])
  {
    hide ShardInv, Filter, TotalEnqueued, ShardOfKey, ShardFor, Shard.InFlight, OfKey;
    TotalUpdate(shards, i, sh);
    forall key
      ensures Filter(OfKey(c, key), handled + [ev]) == Filter(OfKey(c, key), shards[i := sh][ShardOfKey(c, key)].handled)
    {
      SnocAgrees(c, handled, shards[ShardOfKey(c, key)].handled, ev, key);
    }
  }

  /** What a step changes in the thread's hand and in the list of handled events. */
  lemma WorkerHolds(c: Config, s: Shard, t: nat)
    requires ShardInv(c, s) && t < |s.threads| && !s.threads[t].Exited?
    ensures var s' := WorkerStep(s, t);
      && |s'.threads| == |s.threads| && !s.Joinable()
      && (if s.threads[t].Working? then
            s.InFlight() == [s.threads[t].ev] && s'.InFlight() == [] && s'.handled == s.handled + s.InFlight()
          else
            s'.handled == s.handled
            && (s'.InFlight() == [] || (0 <= s.Gone() < |s.enqueued| && s'.InFlight() == [s.enqueued[s.Gone()]])))
  {
    hide Subseq;
    assert t == |s.threads| - 1;
  }

  lemma RouteOfKey(c: Config, ev: Event, key: string)
    requires c.shards > 0
    ensures RoutingKey(c, ev) == key ==> ShardFor(c, ev) == ShardOfKey(c, key)
  {}

  lemma OnlyLastRuns(c: Config, s: Shard, t: nat)
    requires ShardInv(c, s) && t < |s.threads| && !s.threads[t].Exited?
    ensures t == |s.threads| - 1
  {}

  lemma StopKeeps(c: Config, s: Shard, running: bool, closed: bool)
    requires ShardInv(c, s)
    ensures ShardInv(c, s.(running := running, closed := closed))
    ensures s.(running := running, closed := closed).InFlight() == s.InFlight()
  {
    hide HistoryInv;
  }

  lemma SpawnHoldsNothing(s: Shard)
    ensures Spawn(s).InFlight() == []
  {}

  lemma WatchActionKeeps(c: Config, s: State)
    requires Inv(c, s) && Enabled(c, s, WatchStep)
    ensures Inv(c, Apply(c, s, WatchStep))
  {
    hide Histories, ShardInv, Sampled, ShardFor, Spawn, Shard.InFlight, Shard.Joinable;
    match s.watch
    case At(i) =>
      if i < |s.shards| && s.shards[i].heartbeat == s.last[i] && s.missed[i] + 1 >= c.maxMissed {
        StopShardKeeps(c, s.shards, s.acceptedLog, s.handledLog, i, s.shards[i].closed);
        assert s.shards[i].(running := false) == s.shards[i].(running := false, closed := s.shards[i].closed);
      }
    case Stopping(i) => SpawnShardKeeps(c, s.shards, s.acceptedLog, s.handledLog, i);
    case _ =>
  }

  lemma StopShardKeeps(c: Config, shards: seq<Shard>, accepted: seq<Event>, handled: seq<Event>, i: nat, closed: bool)
    requires Histories(c, shards, accepted, handled) && i < |shards|
    ensures Histories(c, shards[i := shards[i].(running := false, closed := closed)], accepted, handled)
  {
    hide Histories, ShardInv, ShardFor, Shard.InFlight;
    OneShard(c, shards, accepted, handled, i);
    StopKeeps(c, shards[i], false, closed);
    SameHistoryKeeps(c, shards, accepted, handled, i, shards[i].(running := false, closed := closed));
  }

  lemma SpawnShardKeeps(c: Config, shards: seq<Shard>, accepted: seq<Event>, handled: seq<Event>, i: nat)
    requires Histories(c, shards, accepted, handled) && i < |shards| && shards[i].Joinable()
    ensures Histories(c, shards[i := Spawn(shards[i])], accepted, handled)
  {
    hide Histories, ShardInv, ShardFor, Spawn, Shard.InFlight, Shard.Joinable;
    OneShard(c, shards, accepted, handled, i);
    SpawnKeeps(c, shards[i]);
    SpawnHoldsNothing(shards[i]);
    SpawnKeepsHistory(shards[i]);
    SameHistoryKeeps(c, shards, accepted, handled, i, Spawn(shards[i]));
  }

  lemma SpawnKeepsHistory(s: Shard)
    ensures Spawn(s).enqueued == s.enqueued && Spawn(s).handled == s.handled
  {}

  lemma MainActionKeeps(c: Config, s: State)
    requires Inv(c, s) && Enabled(c, s, MainStep)
    ensures Inv(c, Apply(c, s, MainStep))
  {
    hide Histories, ShardInv, Sampled, Spawn;
    match s.main
    case Starting(i) =>
      if i < |s.shards| {
        SpawnShardKeeps(c, s.shards, s.acceptedLog, s.handledLog, i);
      }
    case Closing(i) =>
      if i < |s.shards| {
        StopShardKeeps(c, s.shards, s.acceptedLog, s.handledLog, i, true);
      }
    case _ =>
  }

  /** Every step of every thread keeps the invariant. */
  lemma StepKeeps(c: Config, s: State, a: Action)
    requires Inv(c, s) && Enabled(c, s, a)
    ensures Inv(c, Apply(c, s, a))
  {
    hide *;
    match a
    case TryPush(id) => PushActionKeeps(c, s, id);
    case Work(i, t) => WorkActionKeeps(c, s, i, t);
    case WatchStep => WatchActionKeeps(c, s);
    case MainStep => MainActionKeeps(c, s);
    case StartCall => ControlCallKeeps(c, s, a);
    case ShutdownCall => ControlCallKeeps(c, s, a);
    case _ => CallActionKeeps(c, s, a);
  }

  // ---- Runs ----

  /** s' is reached from s by these steps, in this order. */
  ghost predicate Run(c: Config, s: State, steps: seq<Action>, s': State)
    requires Inv(c, s)
    decreases |steps|
  {
    if steps == [] then s' == s
    else Enabled(c, s, steps[0]) && (StepKeeps(c, s, steps[0]); Run(c, Apply(c, s, steps[0]), steps[1..], s'))
  }

  lemma {:induction false} RunKeeps(c: Config, s: State, steps: seq<Action>, s': State)
    requires Inv(c, s) && Run(c, s, steps, s')
    ensures Inv(c, s')
    decreases |steps|
  {
    hide Apply;
    if steps != [] {
      StepKeeps(c, s, steps[0]);
      RunKeeps(c, Apply(c, s, steps[0]), steps[1..], s');
    }
  }

  ghost predicate Reachable(c: Config, s: State) {
    ConfigOk(c) && (InitInv(c); exists steps :: Run(c, InitState(c), steps, s))
  }

  lemma ReachableInv(c: Config, s: State)
    requires Reachable(c, s)
    ensures Inv(c, s)
  {
    InitInv(c);
    var steps :| Run(c, InitState(c), steps, s);
    RunKeeps(c, InitState(c), steps, s);
  }

  // ---- What holds in every reachable state ----

  /** Whatever the interleaving, the events of one routing key are handled in the order in
      which they were accepted, and all of them by one shard. */
  lemma KeyIsHandledInOrder(c: Config, s: State, key: string)
    requires Reachable(c, s)
    ensures Subseq(Filter(OfKey(c, key), s.handledLog), Filter(OfKey(c, key), s.acceptedLog))
    ensures forall i, k :: (0 <= i < |s.shards| && 0 <= k < |s.shards[i].enqueued|
              && RoutingKey(c, s.shards[i].enqueued[k]) == key) ==> i == ShardOfKey(c, key)
  {
    hide Subseq, Filter, ShardOfKey, ShardInv, Phases;
    ReachableInv(c, s);
    ShardIsInOrder(c, s.shards[ShardOfKey(c, key)]);
    FilterSubseq(OfKey(c, key), s.shards[ShardOfKey(c, key)].handled, s.shards[ShardOfKey(c, key)].enqueued);
    forall i, k | 0 <= i < |s.shards| && 0 <= k < |s.shards[i].enqueued|
        && RoutingKey(c, s.shards[i].enqueued[k]) == key
      ensures i == ShardOfKey(c, key)
    {
      RouteOfKey(c, s.shards[i].enqueued[k], key);
    }
  }

  lemma ShardIsInOrder(c: Config, s: Shard)
    requires ShardInv(c, s)
    ensures Subseq(s.handled, s.enqueued)
  {
    hide Subseq, ThreadsInv, HistoryInv;
    TakenInOrder(s.items, s.enqueued, s.handled + s.InFlight(), s.evicted);
    WithoutLast(s.handled, s.InFlight(), s.enqueued);
  }

  lemma WithoutLast(a: seq<Event>, hand: seq<Event>, b: seq<Event>)
    requires |hand| <= 1 && Subseq(a + hand, b)
    ensures Subseq(a, b)
  {
    hide Subseq;
    if hand == [] {
      assert a + hand == a;
    } else {
      SubseqDropLast(a + hand, b);
      assert (a + hand)[..|a + hand| - 1] == a;
    }
  }

  /** Without the evicting policy nothing accepted is lost: a shard has handled exactly the
      oldest events it accepted, the next one may be in the worker's hands, and the rest wait
      in the queue. */
  lemma ShardIsFifo(c: Config, s: State, i: nat)
    requires Reachable(c, s) && i < |s.shards| && c.policy != Priority
    ensures s.shards[i].handled + s.shards[i].InFlight() + s.shards[i].items == s.shards[i].enqueued
  {
    hide Subseq, Routed, LogsAgree, Phases, TotalEnqueued, ThreadsInv;
    ReachableInv(c, s);
    var sh := s.shards[i];
    assert ShardInv(c, sh);
    SubseqFull(sh.handled + sh.InFlight(), sh.enqueued[..sh.Gone()]);
    assert sh.enqueued[..sh.Gone()] + sh.enqueued[sh.Gone()..] == sh.enqueued;
  }

  /** At most one worker runs per shard, watchdog restarts included. */
  lemma OneWorkerPerShard(c: Config, s: State, i: nat, t: nat, u: nat)
    requires Reachable(c, s) && i < |s.shards|
    requires t < |s.shards[i].threads| && u < |s.shards[i].threads|
    requires !s.shards[i].threads[t].Exited? && !s.shards[i].threads[u].Exited?
    ensures t == u
  {
    hide Routed, LogsAgree, Phases, TotalEnqueued, HistoryInv;
    ReachableInv(c, s);
    OnlyLastRuns(c, s.shards[i], t);
    OnlyLastRuns(c, s.shards[i], u);
  }

  /** Every accepted event is processed, in a worker's hands, queued or evicted, and every
      ingested one is dropped, accepted or still inside its ingest call. */
  lemma EventsAreConserved(c: Config, s: State)
    requires Reachable(c, s)
    ensures forall i :: 0 <= i < |s.shards| ==>
              && |s.shards[i].items| <= c.capacity
              && |s.shards[i].enqueued| == s.shards[i].processed + s.shards[i].Busy() + |s.shards[i].items| + s.shards[i].evicted
    ensures s.ingested == s.dropped + TotalEnqueued(s.shards) + |s.calls|
  {
    hide Subseq, Routed, LogsAgree, Phases, ThreadsInv, TotalEnqueued;
    ReachableInv(c, s);
    forall i | 0 <= i < |s.shards|
      ensures |s.shards[i].items| <= c.capacity
      ensures |s.shards[i].enqueued| == s.shards[i].processed + s.shards[i].Busy() + |s.shards[i].items| + s.shards[i].evicted
    {
      assert ShardInv(c, s.shards[i]);
    }
  }

  /** The sampling policy lets exactly one in sample_rate tickets through, the first included,
      however the producers interleave. */
  lemma OneInRateIsSampled(c: Config, s: State)
    requires Reachable(c, s)
    ensures s.sampled * c.sampleRate >= s.sampleCounter
    ensures s.sampleCounter > 0 ==> (s.sampled - 1) * c.sampleRate < s.sampleCounter
  {
    hide Histories, Phases;
    ReachableInv(c, s);
    if s.sampleCounter > 0 {
      var q := (s.sampleCounter - 1) / c.sampleRate;
      assert s.sampleCounter - 1 == q * c.sampleRate + (s.sampleCounter - 1) % c.sampleRate;
      assert (q + 1) * c.sampleRate == q * c.sampleRate + c.sampleRate;
    }
  }

  /** A worker that has exited leaves behind only events accepted after it last found the
      queue empty; for the shard's last worker, it leaves some exactly if there were any. */
  lemma ExitedLeavesOnlyLateEvents(c: Config, s: State, i: nat, t: nat)
    requires Reachable(c, s) && i < |s.shards| && t < |s.shards[i].threads| && s.shards[i].threads[t].Exited?
    ensures var sh := s.shards[i]; var saw := sh.threads[t].sawAll;
      && saw <= |sh.enqueued|
      && (exists k :: saw <= k <= |sh.enqueued| && sh.items == sh.enqueued[k..])
      && (t == |sh.threads| - 1 ==> (sh.items == [] <==> saw == |sh.enqueued|))
  {
    hide Subseq, Routed, LogsAgree, Phases, TotalEnqueued;
    ReachableInv(c, s);
    assert ShardInv(c, s.shards[i]);
    assert s.shards[i].items == s.shards[i].enqueued[s.shards[i].Gone()..];
  }

  // ---- After shutdown ----

  /** How many events a shard had accepted when a worker of it last looked into the queue and
      found nothing; none, if it never had a worker. */
  function LastLook(sh: Shard): nat
    requires sh.Joinable()
  {
    if sh.threads == [] then 0 else sh.threads[|sh.threads| - 1].sawAll
  }

  /** What shutdown leaves behind, shard by shard: a queue is empty exactly if nothing was
      accepted after that last look. A shard that never had a worker has handled nothing and
      keeps all it accepted except what was evicted. */
  lemma DrainedExactly(c: Config, s: State, i: nat)
    requires Reachable(c, s) && s.main.Down? && i < |s.shards|
    ensures var sh := s.shards[i];
      && sh.Joinable() && LastLook(sh) <= |sh.enqueued|
      && (sh.items == [] <==> |sh.enqueued| == LastLook(sh))
      && |sh.items| == |sh.enqueued| - sh.processed - sh.evicted
      && (sh.threads == [] ==> sh.handled == [] && sh.items == sh.enqueued[sh.evicted..])
  {
    hide Subseq, Routed, LogsAgree, TotalEnqueued, Sampled;
    ReachableInv(c, s);
    assert ShardInv(c, s.shards[i]);
  }

  /** Once shutdown has returned no worker and no watchdog can take a step, and no other step
      brings one back or handles an event. */
  lemma DownIsQuiet(c: Config, s: State, a: Action)
    requires Inv(c, s) && s.main.Down? && Enabled(c, s, a)
    ensures !a.Work? && !a.WatchStep?
    ensures var s' := Apply(c, s, a); s'.main.Down? && s'.handledLog == s.handledLog
  {
    hide Routed, LogsAgree, TotalEnqueued, HistoryInv, Push, Sampled;
    if a.Work? {
      OnlyLastRuns(c, s.shards[a.i], a.t);
    }
  }

  /** Over every run that continues after shutdown: nothing is handled any more. */
  lemma {:induction false} NothingRunsAfterShutdown(c: Config, s: State, steps: seq<Action>, s': State)
    requires Inv(c, s) && s.main.Down? && Run(c, s, steps, s')
    ensures s'.main.Down? && s'.handledLog == s.handledLog
    ensures forall k :: 0 <= k < |steps| ==> !steps[k].Work? && !steps[k].WatchStep?
    decreases |steps|
  {
    hide Apply, Histories, Phases, Sampled, Enabled;
    if steps != [] {
      DownIsQuiet(c, s, steps[0]);
      StepKeeps(c, s, steps[0]);
      NothingRunsAfterShutdown(c, Apply(c, s, steps[0]), steps[1..], s');
    }
  }

  // ---- Shutdown does not always drain ----

  lemma {:induction false} RunSnoc(c: Config, s: State, steps: seq<Action>, s': State, a: Action)
    requires Inv(c, s) && Run(c, s, steps, s') && Inv(c, s') && Enabled(c, s', a)
    ensures Run(c, s, steps + [a], Apply(c, s', a))
    decreases |steps|
  {
    hide Apply, Enabled, Histories, Phases;
    if steps != [] {
      StepKeeps(c, s, steps[0]);
      RunSnoc(c, Apply(c, s, steps[0]), steps[1..], s', a);
      assert (steps + [a])[1..] == steps[1..] + [a];
    } else {
      StepKeeps(c, s, a);
      assert (steps + [a])[1..] == [];
    }
  }

  lemma ReachStep(c: Config, s: State, a: Action)
    requires Reachable(c, s) && Enabled(c, s, a)
    ensures ConfigOk(c) && |s.last| == |s.missed| == |s.shards| == c.shards
    ensures Reachable(c, Apply(c, s, a))
  {
    hide Apply, Run;
    InitInv(c);
    var steps :| Run(c, InitState(c), steps, s);
    ReachableInv(c, s);
    RunSnoc(c, InitState(c), steps, s, a);
  }

  lemma InitReachable(c: Config)
    requires ConfigOk(c)
    ensures Reachable(c, InitState(c))
  {
    hide InitState;
    InitInv(c);
    assert Run(c, InitState(c), [], InitState(c));
  }

  /** The state of a one-shard pipeline with one event in play. */
  function Snapshot(main: Main, closed: bool, pc: seq<Thread>, items: seq<Event>, calls: map<nat, Call>,
      taken: nat, log: seq<Event>): State {
    State([Shard(items, 0, closed, pc != [] && !closed, pc, 0, 0, log, [], 0)], calls, taken, 0, 0, 0, main, false, Off,
          [0], [0], 0, log, [])
  }

  lemma Single<T>(x: T, y: T)
    ensures [x][0 := y] == [y] && [] + [y] == [y] && [y][1..] == []
  {}

  /** The first half of the run: the worker finds the queue empty and then a push is accepted. */
  lemma StrandingPush(c: Config, ev: Event)
    requires ConfigOk(c) && c.shards == 1 && c.policy == Drop && !c.autoRestart
    ensures Reachable(c, Snapshot(Serving, false, [Empty(0)], [ev], map[], 1, [ev]))
  {
    hide Reachable;
    InitReachable(c);
    var s0 := Snapshot(Built, false, [], [], map[], 0, []);
    assert InitState(c) == s0;
    Walk(c, s0, StartCall, s0.(main := Starting(0)));
    var s1 := Snapshot(Starting(1), false, [AtLoop], [], map[], 0, []);
    Single(NEW_SHARD, s1.shards[0]);
    Single(AtLoop, AtLoop);
    Walk(c, s0.(main := Starting(0)), MainStep, s1);
    Walk(c, s1, MainStep, s1.(main := Serving));
    var s2 := Snapshot(Serving, false, [AtPop], [], map[], 0, []);
    Single(s1.shards[0], s2.shards[0]);
    Single(AtLoop, AtPop);
    Walk(c, s1.(main := Serving), Work(0, 0), s2);
    var s3 := Snapshot(Serving, false, [Empty(0)], [], map[], 0, []);
    Single(s2.shards[0], s3.shards[0]);
    Single(AtPop, Empty(0));
    Walk(c, s2, Work(0, 0), s3);
    var s4 := Snapshot(Serving, false, [Empty(0)], [], map[0 := Trying(ev)], 1, []);
    Walk(c, s3, Begin(0, ev), s4);
    assert map[0 := Trying(ev)] - {0} == map[];
    Single(s4.shards[0], Snapshot(Serving, false, [Empty(0)], [ev], map[], 1, [ev]).shards[0]);
    Single(ev, ev);
    Walk(c, s4, TryPush(0), Snapshot(Serving, false, [Empty(0)], [ev], map[], 1, [ev]));
  }

  lemma UnstartedPush(c: Config, ev: Event)
    requires ConfigOk(c) && c.shards == 1 && c.policy == Drop
    ensures Reachable(c, Snapshot(Built, false, [], [ev], map[], 1, [ev]))
  {
    hide Reachable;
    InitReachable(c);
    var s0 := Snapshot(Built, false, [], [], map[], 0, []);
    assert InitState(c) == s0;
    var s1 := Snapshot(Built, false, [], [], map[0 := Trying(ev)], 1, []);
    Walk(c, s0, Begin(0, ev), s1);
    assert map[0 := Trying(ev)] - {0} == map[];
    var s2 := Snapshot(Built, false, [], [ev], map[], 1, [ev]);
    Single(s1.shards[0], s2.shards[0]);
    Single(ev, ev);
    Walk(c, s1, TryPush(0), s2);
  }

  /** A pipeline shut down before it was started keeps what it accepted. */
  lemma UnstartedStrands(c: Config, ev: Event)
    requires ConfigOk(c) && c.shards == 1 && c.policy == Drop
    ensures exists s :: Reachable(c, s) && s.main.Down? && s.acceptedLog == [ev] && |s.shards| == 1
                        && s.shards[0].threads == [] && s.shards[0].items == [ev]
  {
    hide Reachable;
    var s2 := Snapshot(Built, false, [], [ev], map[], 1, [ev]);
    UnstartedPush(c, ev);
    Walk(c, s2, ShutdownCall, s2.(main := WatchdogStop));
    Walk(c, s2.(main := WatchdogStop), MainStep, s2.(main := Closing(0)));
    var s3 := Snapshot(Closing(1), true, [], [ev], map[], 1, [ev]);
    Single(s2.shards[0], s3.shards[0]);
    Walk(c, s2.(main := Closing(0)), MainStep, s3);
    Walk(c, s3, MainStep, s3.(main := Joining(0)));
    Walk(c, s3.(main := Joining(0)), MainStep, s3.(main := Joining(1)));
    Walk(c, s3.(main := Joining(1)), MainStep, s3.(main := Down));
    assert Reachable(c, s3.(main := Down));
  }

  lemma Walk(c: Config, s: State, a: Action, s': State)
    requires Reachable(c, s) && Enabled(c, s, a)
    requires ConfigOk(c) && |s.last| == |s.missed| == |s.shards| == c.shards && Apply(c, s, a) == s'
    ensures Reachable(c, s')
  {
    hide Apply, Reachable, Enabled;
    ReachStep(c, s, a);
  }

  /** The queues are not always drained: an event accepted between a worker's empty pop and
      its second look at `running` stays behind when shutdown comes in that moment. */
  lemma ShutdownCanStrand(c: Config, ev: Event)
    requires ConfigOk(c) && c.shards == 1 && c.policy == Drop && !c.autoRestart
    ensures exists s :: Reachable(c, s) && s.main.Down? && s.acceptedLog == [ev] && s.handledLog == []
  {
    hide Reachable;
    StrandingPush(c, ev);
    var s0 := Snapshot(Serving, false, [Empty(0)], [ev], map[], 1, [ev]);
    Walk(c, s0, ShutdownCall, s0.(main := WatchdogStop));
    Walk(c, s0.(main := WatchdogStop), MainStep, s0.(main := Closing(0)));
    var s1 := Snapshot(Closing(1), true, [Empty(0)], [ev], map[], 1, [ev]);
    Single(s0.shards[0], s1.shards[0]);
    Walk(c, s0.(main := Closing(0)), MainStep, s1);
    var s2 := Snapshot(Closing(1), true, [Exited(0)], [ev], map[], 1, [ev]);
    Single(s1.shards[0], s2.shards[0]);
    Single(Empty(0), Exited(0));
    Walk(c, s1, Work(0, 0), s2);
    Walk(c, s2, MainStep, s2.(main := Joining(0)));
    Walk(c, s2.(main := Joining(0)), MainStep, s2.(main := Joining(1)));
    Walk(c, s2.(main := Joining(1)), MainStep, s2.(main := Down));
    assert Reachable(c, s2.(main := Down));
  }
}
