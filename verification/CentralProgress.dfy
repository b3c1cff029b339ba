/** What the event workers get done: what every drain hands out, where every claimed row is,
    and that one undisturbed round delivers what it fetched. */
module CentralProgress {
  import opened CentralRuntime
  import opened QueueHistory
  import opened Subsequences

  // ---- A user's queue, from its operations ----

  /** What happens to one user's queue. */
  datatype Op = Arrive(ev: Event) | Take

  /** What entered since the last drain. */
  function Since(ops: seq<Op>): seq<Event>
    decreases |ops|
  {
    if ops == [] then []
    else
      match ops[|ops| - 1]
      case Arrive(ev) => Since(ops[..|ops| - 1]) + [ev]
      case Take => []
  }

  /** Each drain hands out the newest MAX_USER_QUEUE of what entered since the one before. */
  function HandedOut(ops: seq<Op>): seq<Event>
    decreases |ops|
  {
    if ops == [] then []
    else HandedOut(ops[..|ops| - 1]) + if ops[|ops| - 1].Take? then Newest(Since(ops[..|ops| - 1])) else []
  }

  function Arrivals(ops: seq<Op>): seq<Event>
    decreases |ops|
  {
    if ops == [] then []
    else Arrivals(ops[..|ops| - 1]) + if ops[|ops| - 1].Arrive? then [ops[|ops| - 1].ev] else []
  }

  /** How often an event arrived at a full queue. */
  function Overflows(ops: seq<Op>): nat
    decreases |ops|
  {
    if ops == [] then 0
    else
      var before := ops[..|ops| - 1];
      Overflows(before) + if ops[|ops| - 1].Arrive? && |Since(before)| >= MAX_USER_QUEUE then 1 else 0
  }

  /** Only a full queue loses an event: what is neither handed out nor waiting is counted by the
      arrivals at a full queue, and below the limit there is nothing of the kind. */
  lemma {:induction false} OpsAccount(ops: seq<Op>)
    ensures |Arrivals(ops)| == |HandedOut(ops)| + |Newest(Since(ops))| + Overflows(ops)
    ensures |Since(ops)| <= |Arrivals(ops)|
    ensures |Arrivals(ops)| <= MAX_USER_QUEUE ==> HandedOut(ops) + Since(ops) == Arrivals(ops)
    decreases |ops|
  {
    if ops != [] {
      OpsAccount(ops[..|ops| - 1]);
    }
  }

  // ---- The operations of a run ----

  /** What a step does to the user's queue. */
  function OpOf(s: State, a: Action, user: string): seq<Op> {
    match a
    case RouteOne(w) =>
      if w < |s.workers| && s.workers[w].Routing? && s.workers[w].todo != [] && s.workers[w].todo[0].user == user
      then [Arrive(s.workers[w].todo[0])] else []
    case DrainNext(w) =>
      if w < |s.workers| && s.workers[w].Processing? && s.workers[w].next < |s.order| && s.order[s.workers[w].next] == user
      then [Take] else []
    case _ => []
  }

  ghost function Ops(c: Config, s: State, steps: seq<Action>, s': State, user: string): seq<Op>
    requires Inv(c, s) && Run(c, s, steps, s')
    decreases |steps|
  {
    if steps == [] then []
    else
      StepKeeps(c, s, steps[0]);
      OpOf(s, steps[0], user) + Ops(c, Apply(c, s, steps[0]), steps[1..], s', user)
  }

  function RuntimeOf(s: State, user: string): Runtime {
    if user in s.runtimes then s.runtimes[user] else NEW_RUNTIME
  }

  ghost predicate Follows(r: Runtime, ops: seq<Op>) {
    r.queue == Newest(Since(ops)) && r.popped == HandedOut(ops) && r.arrived == Arrivals(ops)
  }

  lemma RouteFollows(r: Runtime, ops: seq<Op>, ev: Event)
    requires Follows(r, ops)
    ensures Follows(Route(r, ev), ops + [Arrive(ev)])
  {
    hide Newest, Ingested;
    IngestKeepsNewest(Since(ops), ev);
    assert (ops + [Arrive(ev)])[..|ops|] == ops;
  }

  lemma DrainFollows(r: Runtime, ops: seq<Op>)
    requires Follows(r, ops)
    ensures Follows(Drain(r), ops + [Take])
    ensures r.queue == [] ==> Follows(r, ops + [Take])
  {
    assert (ops + [Take])[..|ops|] == ops;
  }

  lemma StepFollows(c: Config, s: State, a: Action, user: string, ops: seq<Op>)
    requires Inv(c, s) && Enabled(c, s, a) && Follows(RuntimeOf(s, user), ops)
    ensures Follows(RuntimeOf(Apply(c, s, a), user), ops + OpOf(s, a, user))
  {
    hide RuntimeInv, WorkerInv, Filter, Grouped, InPartition, Follows, Route, Drain, Mark;
    var r := RuntimeOf(s, user);
    assert ops + [] == ops;
    match a
    case RouteOne(w) => RouteFollows(r, ops, s.workers[w].todo[0]);
    case DrainNext(w) => DrainFollows(r, ops);
    case _ =>
  }

  lemma {:induction false} RunFollows(c: Config, s: State, steps: seq<Action>, s': State, user: string, ops: seq<Op>)
    requires Inv(c, s) && Run(c, s, steps, s') && Follows(RuntimeOf(s, user), ops)
    ensures Follows(RuntimeOf(s', user), ops + Ops(c, s, steps, s', user))
    decreases |steps|
  {
    hide Apply, RuntimeInv, WorkerInv, Follows, OpOf, Enabled;
    if steps == [] {
      assert ops + [] == ops;
    } else {
      var o := OpOf(s, steps[0], user);
      StepKeeps(c, s, steps[0]);
      StepFollows(c, s, steps[0], user, ops);
      RunFollows(c, Apply(c, s, steps[0]), steps[1..], s', user, ops + o);
      assert ops + o + Ops(c, Apply(c, s, steps[0]), steps[1..], s', user) == ops + Ops(c, s, steps, s', user);
    }
  }

  /** Over every run: a user's events are popped by the drains of its queue, each of which hands
      out the newest MAX_USER_QUEUE of those routed to the user since the drain before, in order;
      and an event is dropped exactly for every arrival at a full queue. */
  lemma DrainsHandOutNewest(c: Config, steps: seq<Action>, s: State, user: string)
    requires c.workers > 0 && Inv(c, InitState(c)) && Run(c, InitState(c), steps, s) && user in s.runtimes
    ensures var ops, r := Ops(c, InitState(c), steps, s, user), s.runtimes[user];
      && r.popped == HandedOut(ops) && r.queue == Newest(Since(ops)) && r.arrived == Arrivals(ops)
      && r.dropped == Overflows(ops)
  {
    hide Run, Ops, Since, HandedOut, Arrivals, Overflows, RuntimeInv;
    var ops := Ops(c, InitState(c), steps, s, user);
    NothingYet();
    RunFollows(c, InitState(c), steps, s, user, []);
    assert [] + ops == ops;
    OpsAccount(ops);
    assert Reachable(c, s);
    QueuesAreClaimed(c, s, user);
  }

  lemma NothingYet()
    ensures Follows(NEW_RUNTIME, [])
  {}

  /** In particular, up to MAX_USER_QUEUE events nothing is lost: what arrived has been popped or
      is queued, in order. */
  lemma NothingIsDroppedBelowLimit(c: Config, s: State, user: string)
    requires Reachable(c, s) && user in s.runtimes && |s.runtimes[user].arrived| <= 10000
    ensures s.runtimes[user].popped + s.runtimes[user].queue == s.runtimes[user].arrived && s.runtimes[user].dropped == 0
  {
    hide Run, Ops, Since, HandedOut, Arrivals, Overflows, RuntimeInv, WorkerInv;
    InitInv(c);
    var steps :| Run(c, InitState(c), steps, s);
    DrainsHandOutNewest(c, steps, s, user);
    OpsAccount(Ops(c, InitState(c), steps, s, user));
    QueuesAreClaimed(c, s, user);
  }

  // ---- Where every claimed row is ----

  function IdSet(events: seq<Event>): set<nat> {
    set k | 0 <= k < |events| :: events[k].id
  }

  function TodoOf(pc: Worker): seq<Event> {
    if pc.Routing? then pc.todo else []
  }

  ghost predicate InTodo(workers: seq<Worker>, id: nat) {
    exists w :: 0 <= w < |workers| && id in IdSet(TodoOf(workers[w]))
  }

  ghost predicate HasArrived(runtimes: map<string, Runtime>, id: nat) {
    exists user :: user in runtimes && id in IdSet(runtimes[user].arrived)
  }

  predicate Claimed(db: map<nat, Row>, id: nat) {
    id in db && db[id].processed
  }

  /** The rows a step gives up: claimed ones, when an exception strikes before they are routed. */
  function LostBy(s: State, a: Action): set<nat> {
    match a
    case Raise(w) => if w < |s.workers| then IdSet(TodoOf(s.workers[w])) else {}
    case Claim(w, outcome) =>
      if w < |s.workers| && s.workers[w].Fetched? && outcome.RaisedAfterEffect? then IdSet(s.workers[w].mine) else {}
    case _ => {}
  }

  ghost function Lost(c: Config, s: State, steps: seq<Action>, s': State): set<nat>
    requires Inv(c, s) && Run(c, s, steps, s')
    decreases |steps|
  {
    if steps == [] then {}
    else
      StepKeeps(c, s, steps[0]);
      LostBy(s, steps[0]) + Lost(c, Apply(c, s, steps[0]), steps[1..], s')
  }

  function MarkIds(pc: Worker): seq<nat> {
    match pc
    case Routing(ids, _) => ids
    case Processing(ids, _, _) => ids
    case _ => []
  }

  /** The rows a worker will mark again in its drains are claimed already. */
  ghost predicate MarksClaimed(s: State) {
    forall w, id :: 0 <= w < |s.workers| && id in MarkIds(s.workers[w]) ==> Claimed(s.db, id)
  }

  /** Claimed rows are about to be routed, have arrived, or are lost. */
  ghost predicate Fates(s: State, lost: set<nat>) {
    forall id :: Claimed(s.db, id) <==> InTodo(s.workers, id) || HasArrived(s.runtimes, id) || id in lost
  }

  lemma TodoReplaced(workers: seq<Worker>, w: nat, pc: Worker, id: nat)
    requires w < |workers|
    ensures InTodo(workers[w := pc], id) || id in IdSet(TodoOf(workers[w]))
       <==> InTodo(workers, id) || id in IdSet(TodoOf(pc))
    ensures id in IdSet(TodoOf(workers[w])) ==> InTodo(workers, id)
    ensures id in IdSet(TodoOf(pc)) ==> InTodo(workers[w := pc], id)
  {
    hide TodoOf, IdSet;
    var workers' := workers[w := pc];
    if InTodo(workers, id) {
      var v :| 0 <= v < |workers| && id in IdSet(TodoOf(workers[v]));
      assert v != w ==> workers'[v] == workers[v];
    }
    if InTodo(workers', id) {
      var v :| 0 <= v < |workers| && id in IdSet(TodoOf(workers'[v]));
      assert v != w ==> workers'[v] == workers[v];
    }
    assert workers'[w] == pc;
  }

  lemma ArrivedReplaced(runtimes: map<string, Runtime>, user: string, r: Runtime, id: nat)
    requires IdSet(if user in runtimes then runtimes[user].arrived else []) <= IdSet(r.arrived)
    ensures HasArrived(runtimes[user := r], id) <==> HasArrived(runtimes, id) || id in IdSet(r.arrived)
  {
    hide IdSet;
    var runtimes' := runtimes[user := r];
    if HasArrived(runtimes, id) {
      var u :| u in runtimes && id in IdSet(runtimes[u].arrived);
      assert u in runtimes' && (u != user ==> runtimes'[u] == runtimes[u]);
    }
    if HasArrived(runtimes', id) {
      var u :| u in runtimes' && id in IdSet(runtimes'[u].arrived);
      assert u != user ==> runtimes'[u] == runtimes[u];
    }
    assert runtimes'[user] == r;
  }

  lemma ClaimFates(c: Config, s: State, w: nat, outcome: Commit, lost: set<nat>)
    requires Inv(c, s) && Enabled(c, s, Claim(w, outcome)) && Fates(s, lost)
    ensures Fates(Apply(c, s, Claim(w, outcome)), lost + LostBy(s, Claim(w, outcome)))
  {
    hide RuntimeInv, Grouped, DistinctIds, PartitionFor, NotArrived, InTodo, HasArrived, IdSet;
    var mine := s.workers[w].mine;
    assert WorkerInv(c, s, w);
    GroupedKeeps(mine);
    SameIds(Grouped(mine), mine);
    var a := Claim(w, outcome);
    var s', lost' := Apply(c, s, a), lost + LostBy(s, a);
    forall id
      ensures Claimed(s'.db, id) <==> InTodo(s'.workers, id) || HasArrived(s'.runtimes, id) || id in lost'
    {
      TodoReplaced(s.workers, w, s'.workers[w], id);
      NoTodo(s.workers[w], id);
      ClaimedByMark(s.db, mine, id);
    }
  }

  lemma NoTodo(pc: Worker, id: nat)
    ensures !pc.Routing? ==> id !in IdSet(TodoOf(pc))
  {}

  lemma SameIds(a: seq<Event>, b: seq<Event>)
    requires forall e :: e in a <==> e in b
    ensures IdSet(a) == IdSet(b)
  {
    forall id | id in IdSet(a) ensures id in IdSet(b) {
      var k :| 0 <= k < |a| && a[k].id == id;
      assert a[k] in b;
    }
    forall id | id in IdSet(b) ensures id in IdSet(a) {
      var k :| 0 <= k < |b| && b[k].id == id;
      assert b[k] in a;
    }
  }

  lemma ClaimedByMark(db: map<nat, Row>, mine: seq<Event>, id: nat)
    requires forall k :: 0 <= k < |mine| ==> mine[k].id in db
    ensures Claimed(Mark(db, Ids(mine)), id) <==> Claimed(db, id) || id in IdSet(mine)
  {
    if id in IdSet(mine) {
      var k :| 0 <= k < |mine| && mine[k].id == id;
      assert Ids(mine)[k] == id;
    }
  }

  lemma RouteFates(c: Config, s: State, w: nat, lost: set<nat>)
    requires Inv(c, s) && Enabled(c, s, RouteOne(w)) && Fates(s, lost)
    ensures Fates(Apply(c, s, RouteOne(w)), lost)
  {
    hide RuntimeInv, Pending, DistinctIds, PartitionFor, NotArrived, InTodo, HasArrived, IdSet, Route;
    var s', todo := Apply(c, s, RouteOne(w)), s.workers[w].todo;
    var e := todo[0];
    var r := RuntimeOf(s, e.user);
    RouteArrived(r, e);
    forall id
      ensures Claimed(s'.db, id) <==> InTodo(s'.workers, id) || HasArrived(s'.runtimes, id) || id in lost
    {
      TodoReplaced(s.workers, w, s'.workers[w], id);
      FirstId(todo);
      LastId(r.arrived, e);
      ArrivedReplaced(s.runtimes, e.user, Route(r, e), id);
      OwnArrived(s.runtimes, e.user, id);
    }
  }

  lemma OwnArrived(runtimes: map<string, Runtime>, user: string, id: nat)
    ensures user in runtimes && id in IdSet(runtimes[user].arrived) ==> HasArrived(runtimes, id)
    ensures IdSet(NEW_RUNTIME.arrived) == {}
  {}

  lemma FirstId(events: seq<Event>)
    requires events != []
    ensures IdSet(events) == {events[0].id} + IdSet(events[1..])
  {
    assert events == [events[0]] + events[1..];
    forall id | id in IdSet(events) ensures id in {events[0].id} + IdSet(events[1..]) {
      var k :| 0 <= k < |events| && events[k].id == id;
      assert k > 0 ==> events[1..][k - 1] == events[k];
    }
  }

  lemma LastId(events: seq<Event>, e: Event)
    ensures IdSet(events + [e]) == IdSet(events) + {e.id}
  {
    forall id | id in IdSet(events) + {e.id} ensures id in IdSet(events + [e]) {
      if id in IdSet(events) {
        var k :| 0 <= k < |events| && events[k].id == id;
        assert (events + [e])[k] == events[k];
      } else {
        assert (events + [e])[|events|] == e;
      }
    }
  }

  lemma DrainFates(c: Config, s: State, w: nat, lost: set<nat>)
    requires Inv(c, s) && Enabled(c, s, DrainNext(w)) && Fates(s, lost) && MarksClaimed(s)
    ensures Fates(Apply(c, s, DrainNext(w)), lost)
  {
    hide RuntimeInv, WorkerInv, InTodo, HasArrived, IdSet;
    var s', user := Apply(c, s, DrainNext(w)), s.order[s.workers[w].next];
    forall id
      ensures Claimed(s'.db, id) <==> InTodo(s'.workers, id) || HasArrived(s'.runtimes, id) || id in lost
    {
      TodoReplaced(s.workers, w, s'.workers[w], id);
      NoTodo(s.workers[w], id);
      NoTodo(s'.workers[w], id);
      ArrivedReplaced(s.runtimes, user, s'.runtimes[user], id);
      OwnArrived(s.runtimes, user, id);
      assert s'.runtimes == s.runtimes || s'.runtimes == s.runtimes[user := s'.runtimes[user]];
    }
  }

  /** Steps that change neither rows nor runtimes. */
  lemma QuietFates(c: Config, s: State, a: Action, lost: set<nat>)
    requires Inv(c, s) && Enabled(c, s, a) && Fates(s, lost) && !a.Claim? && !a.RouteOne? && !a.DrainNext?
    ensures Fates(Apply(c, s, a), lost + LostBy(s, a))
  {
    hide RuntimeInv, WorkerInv, InTodo, HasArrived, IdSet, Filter;
    var s' := Apply(c, s, a);
    if a.Insert? {
    } else {
      forall id
        ensures Claimed(s'.db, id) <==> InTodo(s'.workers, id) || HasArrived(s'.runtimes, id) || id in lost + LostBy(s, a)
      {
        TodoReplaced(s.workers, a.w, s'.workers[a.w], id);
        NoTodo(s.workers[a.w], id);
        NoTodo(s'.workers[a.w], id);
      }
    }
  }

  lemma StepMarksClaimed(c: Config, s: State, a: Action)
    requires Inv(c, s) && Enabled(c, s, a) && MarksClaimed(s)
    ensures MarksClaimed(Apply(c, s, a))
  {
    hide RuntimeInv, WorkerInv, Filter, Grouped, InPartition, Route, Drain, Claimed;
    var s' := Apply(c, s, a);
    StepExtends(c, s, a);
    forall v, id | 0 <= v < |s'.workers| && id in MarkIds(s'.workers[v]) ensures Claimed(s'.db, id) {
      if a.Claim? && v == a.w {
        MineIsClaimed(c, s, v, id);
      } else {
        assert MarkIds(s'.workers[v]) == MarkIds(s.workers[v]);
        StaysClaimed(s.db, s'.db, id);
      }
    }
  }

  lemma StepExtends(c: Config, s: State, a: Action)
    requires Inv(c, s) && Enabled(c, s, a)
    ensures Extends(s.db, Apply(c, s, a).db)
  {
    hide RuntimeInv, WorkerInv, Filter, Grouped, InPartition, Route, Drain;
  }

  lemma StaysClaimed(db: map<nat, Row>, db': map<nat, Row>, id: nat)
    requires Extends(db, db') && Claimed(db, id)
    ensures Claimed(db', id)
  {}

  lemma MineIsClaimed(c: Config, s: State, w: nat, id: nat)
    requires Inv(c, s) && w < |s.workers| && s.workers[w].Fetched? && id in Ids(s.workers[w].mine)
    ensures Claimed(Mark(s.db, Ids(s.workers[w].mine)), id)
  {
    hide RuntimeInv, DistinctIds, NotArrived, PartitionFor;
    assert WorkerInv(c, s, w);
    var k :| 0 <= k < |Ids(s.workers[w].mine)| && Ids(s.workers[w].mine)[k] == id;
    assert Recorded(s.db, s.workers[w].mine[k], false);
  }

  lemma StepFates(c: Config, s: State, a: Action, lost: set<nat>)
    requires Inv(c, s) && Enabled(c, s, a) && Fates(s, lost) && MarksClaimed(s)
    ensures Fates(Apply(c, s, a), lost + LostBy(s, a))
  {
    hide *;
    match a
    case Claim(w, outcome) => ClaimFates(c, s, w, outcome, lost);
    case RouteOne(w) =>
      RouteFates(c, s, w, lost);
      LosesNothing(s, a, lost);
    case DrainNext(w) =>
      DrainFates(c, s, w, lost);
      LosesNothing(s, a, lost);
    case _ => QuietFates(c, s, a, lost);
  }

  lemma LosesNothing(s: State, a: Action, lost: set<nat>)
    requires a.RouteOne? || a.DrainNext?
    ensures lost + LostBy(s, a) == lost
  {}

  lemma {:induction false} RunFates(c: Config, s: State, steps: seq<Action>, s': State, lost: set<nat>)
    requires Inv(c, s) && Run(c, s, steps, s') && Fates(s, lost) && MarksClaimed(s)
    ensures Fates(s', lost + Lost(c, s, steps, s'))
    decreases |steps|
  {
    hide Apply, RuntimeInv, WorkerInv, Fates, MarksClaimed, LostBy, Enabled;
    if steps == [] {
      assert lost + {} == lost;
    } else {
      var s1, now := Apply(c, s, steps[0]), LostBy(s, steps[0]);
      StepKeeps(c, s, steps[0]);
      StepFates(c, s, steps[0], lost);
      StepMarksClaimed(c, s, steps[0]);
      RunFates(c, s1, steps[1..], s', lost + now);
      assert lost + now + Lost(c, s1, steps[1..], s') == lost + Lost(c, s, steps, s');
    }
  }

  /** Over every run: the rows marked processed are exactly those a worker is about to route,
      those that have arrived at their user's queue, and those an exception between the claim
      and the routing gave up. */
  lemma ClaimedRowsAreSomewhere(c: Config, steps: seq<Action>, s: State, id: nat)
    requires c.workers > 0 && Inv(c, InitState(c)) && Run(c, InitState(c), steps, s)
    ensures Claimed(s.db, id) <==> InTodo(s.workers, id) || HasArrived(s.runtimes, id) || id in Lost(c, InitState(c), steps, s)
  {
    hide Run, Lost, Claimed, InTodo, HasArrived;
    NoFates(c);
    RunFates(c, InitState(c), steps, s, {});
    assert {} + Lost(c, InitState(c), steps, s) == Lost(c, InitState(c), steps, s);
  }

  lemma NoFates(c: Config)
    ensures Fates(InitState(c), {}) && MarksClaimed(InitState(c))
  {}

  // ---- Rows and fetches ----

  /** The inserts of a run, latest last. */
  function Inserted(steps: seq<Action>): map<nat, string>
    decreases |steps|
  {
    if steps == [] then map[]
    else
      var before, last := Inserted(steps[..|steps| - 1]), steps[|steps| - 1];
      if last.Insert? then before[last.id := last.user] else before
  }

  /** The database holds exactly the rows that were inserted, each with its user. */
  ghost predicate Holds(db: map<nat, Row>, rows: map<nat, string>) {
    db.Keys == rows.Keys && forall id :: id in db ==> db[id].user == rows[id]
  }

  lemma StepInserts(c: Config, s: State, a: Action, rows: map<nat, string>)
    requires Inv(c, s) && Enabled(c, s, a) && Holds(s.db, rows)
    ensures Holds(Apply(c, s, a).db, if a.Insert? then rows[a.id := a.user] else rows)
  {
    hide RuntimeInv, WorkerInv, Filter, Grouped, InPartition, Route, Drain;
  }

  /** A worker claims at least one row and at most 200. */
  ghost predicate Fetches(s: State) {
    forall w :: 0 <= w < |s.workers| && s.workers[w].Fetched? ==> 1 <= |s.workers[w].mine| <= 200
  }

  lemma StepFetches(c: Config, s: State, a: Action)
    requires Inv(c, s) && Enabled(c, s, a) && Fetches(s)
    ensures Fetches(Apply(c, s, a))
  {
    hide RuntimeInv, WorkerInv, Filter, Grouped, InPartition, Route, Drain, Mark;
    if a.Fetch? {
      FilterNotLonger(InPartition(c, a.w), Events(s.db, a.ids));
    }
  }

  lemma InsertedSnoc(before: seq<Action>, a: Action)
    ensures Inserted(before + [a]) == if a.Insert? then Inserted(before)[a.id := a.user] else Inserted(before)
  {
    assert (before + [a])[..|before|] == before;
  }

  lemma {:induction false} RunInserts(c: Config, s: State, steps: seq<Action>, s': State, before: seq<Action>)
    requires Inv(c, s) && Run(c, s, steps, s') && Holds(s.db, Inserted(before)) && Fetches(s)
    ensures Holds(s'.db, Inserted(before + steps)) && Fetches(s')
    decreases |steps|
  {
    hide Apply, RuntimeInv, WorkerInv, Holds, Fetches, Enabled, Inserted;
    if steps == [] {
      assert before + steps == before;
    } else {
      var now := before + [steps[0]];
      StepKeeps(c, s, steps[0]);
      StepInserts(c, s, steps[0], Inserted(before));
      StepFetches(c, s, steps[0]);
      InsertedSnoc(before, steps[0]);
      RunInserts(c, Apply(c, s, steps[0]), steps[1..], s', now);
      assert now + steps[1..] == before + steps;
    }
  }

  /** Over every run: the rows are the ones inserted, and no worker claims an empty batch. */
  lemma RowsAreInserts(c: Config, steps: seq<Action>, s: State)
    requires c.workers > 0 && Inv(c, InitState(c)) && Run(c, InitState(c), steps, s)
    ensures Holds(s.db, Inserted(steps)) && Fetches(s)
  {
    hide Run;
    RunInserts(c, InitState(c), steps, s, []);
    assert [] + steps == steps;
  }

  /** A user's partition depends on the absolute value of its hash, as abs makes it. */
  lemma PartitionIsAbsolute(c: Config, u: string, v: string)
    requires c.workers > 0
    ensures 0 <= c.hash(u) < c.workers ==> PartitionFor(c, u) == c.hash(u)
    ensures c.hash(u) == -c.hash(v) ==> PartitionFor(c, u) == PartitionFor(c, v)
  {}

  // ---- One round ----

  /** Every runtime is in the order in which the dictionary is walked. */
  ghost predicate AllOrdered(s: State) {
    forall user :: user in s.runtimes ==> user in s.order
  }

  lemma StepOrdered(c: Config, s: State, a: Action)
    requires Inv(c, s) && Enabled(c, s, a) && AllOrdered(s)
    ensures AllOrdered(Apply(c, s, a))
  {
    hide RuntimeInv, WorkerInv, Filter, Grouped, InPartition, Route, Drain, Mark;
    if a.RouteOne? {
      var user := s.workers[a.w].todo[0].user;
      assert user in s.order + [user] && forall u :: u in s.order ==> u in s.order + [user];
    }
  }

  lemma {:induction false} RunOrdered(c: Config, s: State, steps: seq<Action>, s': State)
    requires Inv(c, s) && Run(c, s, steps, s') && AllOrdered(s)
    ensures AllOrdered(s')
    decreases |steps|
  {
    hide Apply, RuntimeInv, WorkerInv, AllOrdered, Enabled;
    if steps != [] {
      StepKeeps(c, s, steps[0]);
      StepOrdered(c, s, steps[0]);
      RunOrdered(c, Apply(c, s, steps[0]), steps[1..], s');
    }
  }

  lemma ReachableOrdered(c: Config, s: State)
    requires Reachable(c, s)
    ensures AllOrdered(s)
  {
    hide Run, RuntimeInv, WorkerInv;
    InitInv(c);
    var steps :| Run(c, InitState(c), steps, s);
    RunOrdered(c, InitState(c), steps, s);
  }

  /** How many of a user's events are done with: popped or dropped. */
  function Gone(r: Runtime): nat {
    |r.popped| + r.dropped
  }

  /** Runtimes only move on. */
  ghost predicate Grows(r: Runtime, r': Runtime) {
    r.popped <= r'.popped && r.arrived <= r'.arrived && Gone(r) <= Gone(r')
  }

  lemma StepGrows(c: Config, s: State, a: Action, user: string)
    requires Inv(c, s) && Enabled(c, s, a)
    ensures Grows(RuntimeOf(s, user), RuntimeOf(Apply(c, s, a), user))
    ensures user in s.runtimes ==> user in Apply(c, s, a).runtimes
  {
    hide RuntimeInv, WorkerInv, Filter, Grouped, InPartition, Mark, Ingested;
  }

  /** The runtimes that worker w has walked past have done with what arrived before `base`. */
  ghost predicate WalkedPast(s: State, w: nat, base: State)
    requires w < |s.workers| && s.workers[w].Processing?
  {
    forall k :: 0 <= k < s.workers[w].next && k < |s.order| && s.order[k] in base.runtimes ==>
      |base.runtimes[s.order[k]].arrived| <= Gone(RuntimeOf(s, s.order[k]))
  }

  /** A step of the round of worker w. */
  predicate InRound(a: Action, w: nat) {
    a != Unlock(w) && a != Raise(w)
  }

  lemma RoundStep(c: Config, s: State, a: Action, w: nat, base: State)
    requires Inv(c, s) && Enabled(c, s, a) && InRound(a, w)
    requires w < |s.workers| && s.workers[w].Processing? && WalkedPast(s, w, base)
    requires forall user :: user in base.runtimes ==> Grows(base.runtimes[user], RuntimeOf(s, user))
    ensures var s' := Apply(c, s, a);
      && |s'.workers| == |s.workers| && s'.workers[w].Processing? && s'.order == s.order
      && WalkedPast(s', w, base)
      && forall user :: user in base.runtimes ==> Grows(base.runtimes[user], RuntimeOf(s', user))
  {
    hide RuntimeInv, WorkerInv, Filter, Grouped, InPartition, Mark, Route, Drain, Grows;
    var s' := Apply(c, s, a);
    RoundKeepsWorker(c, s, a, w);
    forall user | user in base.runtimes ensures Grows(base.runtimes[user], RuntimeOf(s', user)) {
      StepGrows(c, s, a, user);
      GrowsTrans(base.runtimes[user], RuntimeOf(s, user), RuntimeOf(s', user));
    }
    forall k | 0 <= k < s'.workers[w].next && k < |s.order| && s.order[k] in base.runtimes
      ensures |base.runtimes[s.order[k]].arrived| <= Gone(RuntimeOf(s', s.order[k]))
    {
      var user := s.order[k];
      StepGrows(c, s, a, user);
      StillGone(RuntimeOf(s, user), RuntimeOf(s', user));
      if a == DrainNext(w) && k == s.workers[w].next {
        assert RuntimeInv(s.db, user, s.runtimes[user]);
        DrainedIsGone(s.db, user, s.runtimes[user]);
        StillArrived(base.runtimes[user], s.runtimes[user]);
        assert s'.runtimes[user] == if s.runtimes[user].queue == [] then s.runtimes[user] else Drain(s.runtimes[user]);
      }
    }
  }

  lemma RoundKeepsWorker(c: Config, s: State, a: Action, w: nat)
    requires Inv(c, s) && Enabled(c, s, a) && InRound(a, w) && w < |s.workers| && s.workers[w].Processing?
    ensures var s' := Apply(c, s, a);
      && |s'.workers| == |s.workers| && s'.order == s.order
      && s'.workers[w] == if a == DrainNext(w) then s.workers[w].(next := s.workers[w].next + 1) else s.workers[w]
  {
    hide RuntimeInv, Pending, Filter, Grouped, InPartition, Mark, Route, Drain;
    assert WorkerInv(c, s, w);
  }

  lemma GrowsTrans(a: Runtime, b: Runtime, d: Runtime)
    requires Grows(a, b) && Grows(b, d)
    ensures Grows(a, d)
  {}

  lemma StillGone(r: Runtime, r': Runtime)
    requires Grows(r, r')
    ensures Gone(r) <= Gone(r')
  {}

  lemma StillArrived(r: Runtime, r': Runtime)
    requires Grows(r, r')
    ensures |r.arrived| <= |r'.arrived|
  {}

  lemma DrainedIsGone(db: map<nat, Row>, user: string, r: Runtime)
    requires RuntimeInv(db, user, r)
    ensures Gone(Drain(r)) == |r.arrived| && (r.queue == [] ==> Gone(r) == |r.arrived|)
  {
    hide DistinctIds, Recorded, Subseq;
  }

  lemma {:induction false} RoundRun(c: Config, s: State, steps: seq<Action>, s': State, w: nat, base: State)
    requires Inv(c, s) && Run(c, s, steps, s') && forall k :: 0 <= k < |steps| ==> InRound(steps[k], w)
    requires w < |s.workers| && s.workers[w].Processing? && WalkedPast(s, w, base)
    requires forall user :: user in base.runtimes ==> Grows(base.runtimes[user], RuntimeOf(s, user))
    ensures |s'.workers| == |s.workers| && s'.workers[w].Processing? && WalkedPast(s', w, base) && s'.order == s.order
    decreases |steps|
  {
    hide Apply, RuntimeInv, WorkerInv, WalkedPast, Grows, Enabled;
    if steps != [] {
      StepKeeps(c, s, steps[0]);
      RoundStep(c, s, steps[0], w, base);
      RoundRun(c, Apply(c, s, steps[0]), steps[1..], s', w, base);
    }
  }

  /** A round that walks to its end without an exception leaves nothing behind, whatever the
      other workers do meanwhile: every event that had arrived when it took the lock has been
      popped, or dropped from a full queue, when it is about to give the lock back. */
  lemma RoundDrainsAll(c: Config, s: State, steps: seq<Action>, s': State, w: nat, user: string)
    requires Reachable(c, s) && Inv(c, s) && Run(c, s, steps, s') && forall k :: 0 <= k < |steps| ==> InRound(steps[k], w)
    requires w < |s.workers| && s.workers[w].Processing? && s.workers[w].next == 0 && user in s.runtimes
    requires Enabled(c, s', Unlock(w))
    ensures |s.runtimes[user].arrived| <= Gone(RuntimeOf(s', user))
  {
    hide Apply, RuntimeInv, WorkerInv, Run;
    ReachableOrdered(c, s);
    RoundRun(c, s, steps, s', w, s);
    var k :| 0 <= k < |s.order| && s.order[k] == user;
  }

  // ---- One undisturbed round delivers what it fetched ----

  lemma RunCons(c: Config, s: State, a: Action, rest: seq<Action>, s': State)
    requires Inv(c, s) && Enabled(c, s, a) && Inv(c, Apply(c, s, a)) && Run(c, Apply(c, s, a), rest, s')
    ensures Run(c, s, [a] + rest, s')
  {
    hide Apply, RuntimeInv, WorkerInv, Enabled;
    assert ([a] + rest)[1..] == rest;
  }

  lemma RunNothing(c: Config, s: State)
    requires Inv(c, s)
    ensures Run(c, s, [], s)
  {}

  /** e is among the last n events of the queue of its user. */
  ghost predicate Recent(s: State, e: Event, n: nat) {
    exists k :: |RuntimeOf(s, e.user).queue| - n <= k < |RuntimeOf(s, e.user).queue| && 0 <= k && RuntimeOf(s, e.user).queue[k] == e
  }

  lemma IngestedStaysRecent(queue: seq<Event>, ev: Event, k: nat, n: nat)
    requires |queue| <= MAX_USER_QUEUE && n < MAX_USER_QUEUE && |queue| - n <= k < |queue|
    ensures var queue' := Ingested(queue, ev);
      exists i :: |queue'| - (n + 1) <= i < |queue'| && 0 <= i && queue'[i] == queue[k]
    ensures var queue' := Ingested(queue, ev); |queue'| > 0 && queue'[|queue'| - 1] == ev
  {
    var queue' := Ingested(queue, ev);
    if |queue| >= MAX_USER_QUEUE {
      assert queue'[k - 1] == queue[k];
    } else {
      assert queue'[k] == queue[k];
    }
  }

  lemma RouteStaysRecent(c: Config, s: State, w: nat, e: Event, n: nat)
    requires Inv(c, s) && Enabled(c, s, RouteOne(w)) && n < MAX_USER_QUEUE
    requires Recent(s, e, n) || e == s.workers[w].todo[0]
    ensures Recent(Apply(c, s, RouteOne(w)), e, n + 1)
  {
    hide WorkerInv, Ingested, HistoryInv;
    var ev := s.workers[w].todo[0];
    var s' := Apply(c, s, RouteOne(w));
    var r := RuntimeOf(s, ev.user);
    assert RuntimeOf(s', ev.user) == Route(r, ev);
    if e == ev {
      LastIsNew(r.queue, ev);
    } else {
      var k :| |RuntimeOf(s, e.user).queue| - n <= k < |RuntimeOf(s, e.user).queue| && 0 <= k
               && RuntimeOf(s, e.user).queue[k] == e;
      if e.user == ev.user {
        IngestedStaysRecent(r.queue, ev, k, n);
      } else {
        assert RuntimeOf(s', e.user) == RuntimeOf(s, e.user);
      }
    }
  }

  lemma LastIsNew(queue: seq<Event>, ev: Event)
    ensures var queue' := Ingested(queue, ev); |queue'| > 0 && queue'[|queue'| - 1] == ev
  {}

  /** Routing all that is to be routed, with the lock free and nobody else moving. */
  lemma {:induction false} RouteAll(c: Config, s: State, w: nat, routed: seq<Event>) returns (steps: seq<Action>, s': State)
    requires Inv(c, s) && w < |s.workers| && s.workers[w].Routing? && s.lock.None?
    requires |routed| + |s.workers[w].todo| <= MAX_USER_QUEUE
    requires forall e :: e in routed ==> Recent(s, e, |routed|)
    ensures Inv(c, s') && Run(c, s, steps, s') && Only(steps, w)
    ensures |s'.workers| == |s.workers| && s'.workers[w].Routing? && s'.workers[w].todo == [] && s'.lock.None?
    ensures forall e :: e in routed + s.workers[w].todo ==> Recent(s', e, |routed| + |s.workers[w].todo|)
    decreases |s.workers[w].todo|
  {
    hide RuntimeInv, WorkerInv, Recent, Run, Route;
    var todo := s.workers[w].todo;
    if todo == [] {
      steps, s' := [], s;
      RunNothing(c, s);
      assert routed + todo == routed;
    } else {
      var a := RouteOne(w);
      var s1 := Apply(c, s, a);
      StepKeeps(c, s, a);
      RouteState(c, s, w);
      var routed' := routed + [todo[0]];
      forall e | e in routed' ensures Recent(s1, e, |routed'|) {
        RouteStaysRecent(c, s, w, e, |routed|);
      }
      var rest;
      rest, s' := RouteAll(c, s1, w, routed');
      steps := [a] + rest;
      RunCons(c, s, a, rest, s');
      assert routed' + todo[1..] == routed + todo;
    }
  }

  predicate Only(steps: seq<Action>, w: nat) {
    forall k :: 0 <= k < |steps| ==> !steps[k].Insert? && steps[k].w == w && InRound(steps[k], w)
  }

  lemma RouteState(c: Config, s: State, w: nat)
    requires Inv(c, s) && Enabled(c, s, RouteOne(w))
    ensures var s' := Apply(c, s, RouteOne(w));
      && |s'.workers| == |s.workers| && s'.lock == s.lock
      && s'.workers[w] == s.workers[w].(todo := s.workers[w].todo[1..])
  {
    hide RuntimeInv, WorkerInv, Route;
  }

  /** Draining what is left of the walk. */
  lemma {:induction false} DrainAll(c: Config, s: State, w: nat) returns (steps: seq<Action>, s': State)
    requires Inv(c, s) && w < |s.workers| && s.workers[w].Processing?
    ensures Inv(c, s') && Run(c, s, steps, s') && Only(steps, w)
    ensures |s'.workers| == |s.workers| && Enabled(c, s', Unlock(w)) && s'.order == s.order
    ensures forall user :: RuntimeOf(s, user).popped <= RuntimeOf(s', user).popped
    ensures forall k, e :: s.workers[w].next <= k < |s.order| && e in RuntimeOf(s, s.order[k]).queue ==>
              e in RuntimeOf(s', s.order[k]).popped
    decreases |s.order| - s.workers[w].next
  {
    hide RuntimeInv, WorkerInv, Run, Drain, Mark;
    if s.workers[w].next >= |s.order| {
      steps, s' := [], s;
      RunNothing(c, s);
    } else {
      var a := DrainNext(w);
      var s1 := Apply(c, s, a);
      StepKeeps(c, s, a);
      DrainState(c, s, w);
      var rest;
      rest, s' := DrainAll(c, s1, w);
      steps := [a] + rest;
      RunCons(c, s, a, rest, s');
      var n, order := s.workers[w].next, s.order;
      forall user ensures RuntimeOf(s, user).popped <= RuntimeOf(s', user).popped {
        assert RuntimeOf(s, user).popped <= RuntimeOf(s1, user).popped <= RuntimeOf(s', user).popped;
      }
      forall k, e | n <= k < |order| && e in RuntimeOf(s, order[k]).queue
        ensures e in RuntimeOf(s', order[k]).popped
      {
        if order[k] == order[n] {
          assert e in RuntimeOf(s1, order[n]).popped;
        } else {
          assert RuntimeOf(s1, order[k]) == RuntimeOf(s, order[k]);
        }
      }
    }
  }

  lemma DrainState(c: Config, s: State, w: nat)
    requires Inv(c, s) && Enabled(c, s, DrainNext(w))
    ensures var s', user := Apply(c, s, DrainNext(w)), s.order[s.workers[w].next];
      && |s'.workers| == |s.workers| && s'.order == s.order
      && s'.workers[w] == s.workers[w].(next := s.workers[w].next + 1)
      && (forall u :: u != user ==> RuntimeOf(s', u) == RuntimeOf(s, u))
      && RuntimeOf(s', user).popped == RuntimeOf(s, user).popped + RuntimeOf(s, user).queue
      && user in s.runtimes
  {
    hide RuntimeInv, WorkerInv, Mark;
  }

  lemma {:induction false} RunConcat(c: Config, s: State, first: seq<Action>, s1: State, second: seq<Action>, s': State)
    requires Inv(c, s) && Run(c, s, first, s1) && Inv(c, s1) && Run(c, s1, second, s')
    ensures Run(c, s, first + second, s')
    decreases |first|
  {
    hide Apply, RuntimeInv, WorkerInv, Enabled;
    if first == [] {
      assert first + second == second;
    } else {
      StepKeeps(c, s, first[0]);
      RunConcat(c, Apply(c, s, first[0]), first[1..], s1, second, s');
      assert (first + second)[1..] == first[1..] + second;
    }
  }

  lemma {:induction false} RunExtends(c: Config, s: State, steps: seq<Action>, s': State)
    requires Inv(c, s) && Run(c, s, steps, s')
    ensures Extends(s.db, s'.db)
    decreases |steps|
  {
    hide Apply, RuntimeInv, WorkerInv, Enabled;
    if steps != [] {
      StepKeeps(c, s, steps[0]);
      StepExtends(c, s, steps[0]);
      RunExtends(c, Apply(c, s, steps[0]), steps[1..], s');
    }
  }

  lemma {:induction false} FilterSplits(user: string, events: seq<Event>)
    ensures |Filter(OfUser(user), events)| + |Filter(NotOfUser(user), events)| == |events|
    decreases |events|
  {
    if events != [] {
      FilterSplits(user, events[..|events| - 1]);
    }
  }

  lemma {:induction false} GroupedSize(events: seq<Event>)
    ensures |Grouped(events)| == |events|
    decreases |events|
  {
    hide Filter;
    if events != [] {
      var user := events[0].user;
      FilterShorter(NotOfUser(user), events, 0);
      FilterSplits(user, events);
      GroupedSize(Filter(NotOfUser(user), events));
    }
  }

  /** What a worker has fetched and what the fetch was for. */
  lemma MineIs(c: Config, s: State, w: nat, ids: seq<nat>)
    requires Inv(c, s) && Enabled(c, s, Fetch(w, ids))
    ensures var mine := Filter(InPartition(c, w), Events(s.db, ids));
      && |mine| <= FETCH_LIMIT
      && forall k :: 0 <= k < |ids| && PartitionFor(c, s.db[ids[k]].user) == w ==>
           Event(ids[k], s.db[ids[k]].user) in mine && ids[k] in Ids(mine)
  {
    hide RuntimeInv, WorkerInv, PartitionFor, Filter;
    var all := Events(s.db, ids);
    var mine := Filter(InPartition(c, w), all);
    FilterNotLonger(InPartition(c, w), all);
    forall k | 0 <= k < |ids| && PartitionFor(c, s.db[ids[k]].user) == w
      ensures Event(ids[k], s.db[ids[k]].user) in mine && ids[k] in Ids(mine)
    {
      var e := Event(ids[k], s.db[ids[k]].user);
      assert all[k] == e;
      FilterElement(InPartition(c, w), all, e);
      var i :| 0 <= i < |mine| && mine[i] == e;
      assert Ids(mine)[i] == ids[k];
    }
  }

  /** The first two steps of the round. */
  lemma FetchAndClaim(c: Config, s: State, w: nat, ids: seq<nat>) returns (s2: State)
    requires Inv(c, s) && AllOrdered(s) && Enabled(c, s, Fetch(w, ids)) && s.lock.None?
    requires Filter(InPartition(c, w), Events(s.db, ids)) != []
    ensures var mine := Filter(InPartition(c, w), Events(s.db, ids));
      && Inv(c, s2) && AllOrdered(s2) && Run(c, s, [Fetch(w, ids), Claim(w, Committed)], s2)
      && |s2.workers| == |s.workers| && s2.workers[w] == Routing(Ids(mine), Grouped(mine)) && s2.lock.None?
      && forall id :: id in Ids(mine) ==> Claimed(s2.db, id)
  {
    hide RuntimeInv, WorkerInv, Filter, Grouped, InPartition, AllOrdered, Mark, Run, IsFetch;
    var a, b := Fetch(w, ids), Claim(w, Committed);
    var s1 := Apply(c, s, a);
    StepKeeps(c, s, a);
    StepOrdered(c, s, a);
    s2 := Apply(c, s1, b);
    StepKeeps(c, s1, b);
    StepOrdered(c, s1, b);
    RunNothing(c, s2);
    RunCons(c, s1, b, [], s2);
    RunCons(c, s, a, [b] + [], s2);
    assert [a] + ([b] + []) == [a, b];
    var mine := s1.workers[w].mine;
    forall id | id in Ids(mine) ensures Claimed(s2.db, id) {
      MineIsClaimed(c, s1, w, id);
    }
  }

  /** The rest of it: route, lock, drain, unlock. */
  lemma DeliverAll(c: Config, s: State, w: nat) returns (steps: seq<Action>, s': State)
    requires Inv(c, s) && AllOrdered(s) && w < |s.workers| && s.workers[w].Routing? && s.lock.None?
    requires |s.workers[w].todo| <= MAX_USER_QUEUE
    ensures Run(c, s, steps, s') && |s'.workers| == |s.workers| && s'.workers[w].Idle? && s'.lock.None?
    ensures forall k :: 0 <= k < |steps| ==> !steps[k].Insert? && !steps[k].Raise? && steps[k].w == w
    ensures forall e :: e in s.workers[w].todo ==> e in RuntimeOf(s', e.user).popped
  {
    hide RuntimeInv, WorkerInv, AllOrdered, Recent, Run;
    var first, s1 := RouteAll(c, s, w, []);
    RunOrdered(c, s, first, s1);
    var s2 := Apply(c, s1, Lock(w));
    StepKeeps(c, s1, Lock(w));
    StepOrdered(c, s1, Lock(w));
    var second, s3 := DrainAll(c, s2, w);
    s' := Apply(c, s3, Unlock(w));
    StepKeeps(c, s3, Unlock(w));
    RunNothing(c, s');
    RunCons(c, s3, Unlock(w), [], s');
    RunConcat(c, s2, second, s3, [Unlock(w)] + [], s');
    RunCons(c, s1, Lock(w), second + ([Unlock(w)] + []), s');
    steps := first + ([Lock(w)] + (second + ([Unlock(w)] + [])));
    RunConcat(c, s, first, s1, [Lock(w)] + (second + ([Unlock(w)] + [])), s');
    forall e | e in s.workers[w].todo ensures e in RuntimeOf(s', e.user).popped {
      assert [] + s.workers[w].todo == s.workers[w].todo;
      assert Recent(s1, e, |s.workers[w].todo|);
      RecentIsWalked(s1, s2, e, |s.workers[w].todo|);
    }
  }

  /** A queued event is in the queue of a runtime that the walk will come to. */
  lemma RecentIsWalked(s: State, s': State, e: Event, n: nat)
    requires Recent(s, e, n) && s'.runtimes == s.runtimes && AllOrdered(s')
    ensures exists k :: 0 <= k < |s'.order| && s'.order[k] == e.user && e in RuntimeOf(s', s'.order[k]).queue
  {
    assert e in RuntimeOf(s, e.user).queue;
    assert e.user in s.runtimes;
    assert e.user in s'.order;
  }

  /** When nobody interferes, a round pops every row of the worker's partition that it fetched,
      leaves all of them marked processed, and ends. */
  lemma BatchIsDelivered(c: Config, s: State, w: nat, ids: seq<nat>) returns (steps: seq<Action>, s': State)
    requires Reachable(c, s) && Inv(c, s) && Enabled(c, s, Fetch(w, ids)) && s.lock.None?
    ensures Run(c, s, steps, s') && |s'.workers| == |s.workers| && s'.workers[w].Idle? && s'.lock.None?
    ensures forall k :: 0 <= k < |steps| ==> !steps[k].Insert? && !steps[k].Raise? && steps[k].w == w
    ensures forall k :: 0 <= k < |ids| && ids[k] in s.db && PartitionFor(c, s.db[ids[k]].user) == w ==>
              Event(ids[k], s.db[ids[k]].user) in RuntimeOf(s', s.db[ids[k]].user).popped && Claimed(s'.db, ids[k])
  {
    hide RuntimeInv, WorkerInv, AllOrdered, Run, Filter, Grouped, Apply, DistinctIds, PartitionFor, InPartition, Claimed, Extends;
    ReachableOrdered(c, s);
    MineIs(c, s, w, ids);
    var mine := Filter(InPartition(c, w), Events(s.db, ids));
    if mine == [] {
      steps, s' := [], s;
      RunNothing(c, s);
    } else {
      var s2 := FetchAndClaim(c, s, w, ids);
      GroupedSize(mine);
      MineDistinct(c, s, w, ids);
      GroupedKeeps(mine);
      var rest;
      rest, s' := DeliverAll(c, s2, w);
      RunExtends(c, s2, rest, s');
      steps := [Fetch(w, ids), Claim(w, Committed)] + rest;
      RunConcat(c, s, [Fetch(w, ids), Claim(w, Committed)], s2, rest, s');
      forall k | 0 <= k < |ids| && ids[k] in s.db && PartitionFor(c, s.db[ids[k]].user) == w
        ensures Event(ids[k], s.db[ids[k]].user) in RuntimeOf(s', s.db[ids[k]].user).popped && Claimed(s'.db, ids[k])
      {
        StaysClaimed(s2.db, s'.db, ids[k]);
      }
    }
  }

  lemma MineDistinct(c: Config, s: State, w: nat, ids: seq<nat>)
    requires Inv(c, s) && Enabled(c, s, Fetch(w, ids))
    ensures DistinctIds(Filter(InPartition(c, w), Events(s.db, ids)))
  {
    hide RuntimeInv, WorkerInv, Filter, Subseq;
    FilterIsSubseq(InPartition(c, w), Events(s.db, ids));
    DistinctSubseq(Filter(InPartition(c, w), Events(s.db, ids)), Events(s.db, ids));
  }
}
