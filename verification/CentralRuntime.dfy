/** The event workers of backend/app/central_runtime.py as a state machine: every worker
    fetches unprocessed rows, keeps those of its partition, marks them processed in one
    commit, routes them to the users' queues and then drains all queues under the manager's
    lock. Inserts, the workers' steps and exceptions interleave freely. */
module CentralRuntime {
  import opened QueueHistory
  import opened Subsequences

  const MAX_USER_QUEUE := 10000
  const FETCH_LIMIT := 200

  datatype Event = Event(id: nat, user: string)

  datatype Option<T> = None | Some(value: T)

  // ---- A user's queue ----

  function Ingested(queue: seq<Event>, ev: Event): seq<Event> {
    (if |queue| >= MAX_USER_QUEUE then queue[1..] else queue) + [ev]
  }

  /** The newest MAX_USER_QUEUE events of a sequence. */
  function Newest(events: seq<Event>): (r: seq<Event>)
    ensures |r| <= MAX_USER_QUEUE
  {
    if |events| <= MAX_USER_QUEUE then events else events[|events| - MAX_USER_QUEUE..]
  }

  /** Dropping the oldest at each step keeps the newest. */
  lemma IngestKeepsNewest(events: seq<Event>, ev: Event)
    ensures Ingested(Newest(events), ev) == Newest(events + [ev])
  {
    var n := |events| - MAX_USER_QUEUE;
    if n >= 0 {
      assert Newest(events) == events[n..];
      assert events[n..][1..] + [ev] == (events + [ev])[n + 1..];
    }
  }

  class UserRuntime {
    const userId: string
    var queue: seq<Event>
    /** Everything ingested since the last drain. */
    ghost var pending: seq<Event>

    ghost predicate Valid()
      reads this
    {
      queue == Newest(pending)
    }

    constructor (userId: string)
      ensures Valid() && this.userId == userId && pending == []
    {
      this.userId := userId;
      queue, pending := [], [];
    }

    /** The queue goes on holding the newest MAX_USER_QUEUE of all events since the last drain. */
    method Ingest(ev: Event)
      requires Valid()
      modifies this
      ensures Valid() && pending == old(pending) + [ev]
    {
      IngestKeepsNewest(pending, ev);
      if |queue| >= MAX_USER_QUEUE {
        queue := queue[1..];
      }
      queue := queue + [ev];
      pending := pending + [ev];
    }

    /** The drain at the head of process_batch: it hands out the newest MAX_USER_QUEUE events
        since the drain before, in order. */
    method TakeBatch() returns (batch: seq<Event>)
      requires Valid()
      modifies this
      ensures Valid() && batch == Newest(old(pending)) && pending == []
    {
      batch := [];
      while queue != []
        invariant batch + queue == old(queue)
        decreases |queue|
      {
        batch := batch + [queue[0]];
        queue := queue[1..];
      }
      pending := [];
    }
  }

  /** A runtime with its history: `arrived` in routing order, `popped` in the order in which
      process_batch took them, `dropped` to make room. */
  datatype Runtime = Runtime(queue: seq<Event>, arrived: seq<Event>, popped: seq<Event>, dropped: nat)

  const NEW_RUNTIME := Runtime([], [], [], 0)

  function Route(r: Runtime, ev: Event): Runtime {
    Runtime(Ingested(r.queue, ev), r.arrived + [ev], r.popped,
            r.dropped + (if |r.queue| >= MAX_USER_QUEUE then 1 else 0))
  }

  function Drain(r: Runtime): Runtime {
    r.(queue := [], popped := r.popped + r.queue)
  }

  // ---- The workers ----

  datatype Row = Row(user: string, processed: bool)

  datatype Worker =
    | Idle
    | Fetched(mine: seq<Event>)                     // about to claim
    | Routing(ids: seq<nat>, todo: seq<Event>)      // claimed, still to route
    | Processing(ids: seq<nat>, next: nat, size: nat) // holds the lock, iterating the runtimes

  /** `order` is the insertion order of the runtimes dictionary. */
  datatype State = State(
    db: map<nat, Row>, runtimes: map<string, Runtime>, order: seq<string>, lock: Option<nat>, workers: seq<Worker>)

  /** How the commit of the claim ends. */
  datatype Commit = Committed | RaisedAfterEffect | RaisedBeforeEffect

  datatype Action =
    | Insert(id: nat, user: string)
    | Fetch(w: nat, ids: seq<nat>)
    | Claim(w: nat, outcome: Commit)
    | RouteOne(w: nat)
    | Lock(w: nat)
    | DrainNext(w: nat)
    | Unlock(w: nat)
    | Raise(w: nat)                 // an exception anywhere in the batch

  /** abs(hash(user_id)) % num_workers, with the interpreter's hash as a parameter. */
  datatype Config = Config(workers: nat, hash: string -> int)

  function PartitionFor(c: Config, user: string): (w: nat)
    requires c.workers > 0
    ensures w < c.workers
  {
    (if c.hash(user) < 0 then -c.hash(user) else c.hash(user)) % c.workers
  }

  function InitState(c: Config): State {
    State(map[], map[], [], None, seq(c.workers, i => Idle))
  }

  /** What the query may return: unprocessed rows, all of them or FETCH_LIMIT. */
  ghost predicate IsFetch(db: map<nat, Row>, ids: seq<nat>) {
    && (forall k :: 0 <= k < |ids| ==> ids[k] in db && !db[ids[k]].processed)
    && (forall j, k :: 0 <= j < k < |ids| ==> ids[j] != ids[k])
    && |ids| <= FETCH_LIMIT
    && (|ids| < FETCH_LIMIT ==> forall id :: id in db && !db[id].processed ==> id in ids)
  }

  function Events(db: map<nat, Row>, ids: seq<nat>): (r: seq<Event>)
    requires forall k :: 0 <= k < |ids| ==> ids[k] in db
    ensures |r| == |ids| && forall k :: 0 <= k < |r| ==> r[k] == Event(ids[k], db[ids[k]].user)
  {
    seq(|ids|, k requires 0 <= k < |ids| => Event(ids[k], db[ids[k]].user))
  }

  function Ids(events: seq<Event>): (r: seq<nat>)
    ensures |r| == |events| && forall k :: 0 <= k < |r| ==> r[k] == events[k].id
  {
    seq(|events|, k requires 0 <= k < |events| => events[k].id)
  }

  function Mark(db: map<nat, Row>, ids: seq<nat>): (r: map<nat, Row>)
    ensures r.Keys == db.Keys
    ensures forall id :: id in db ==> r[id].user == db[id].user && (r[id].processed <==> db[id].processed || id in ids)
  {
    map id | id in db :: if id in ids then db[id].(processed := true) else db[id]
  }

  function OfUser(user: string): Event -> bool {
    (ev: Event) => ev.user == user
  }

  function NotOfUser(user: string): Event -> bool {
    (ev: Event) => ev.user != user
  }

  /** ingest_events walks the users in order of first appearance, each with its events. */
  function Grouped(events: seq<Event>): seq<Event>
    decreases |events|
  {
    if events == [] then []
    else
      FilterShorter(NotOfUser(events[0].user), events, 0);
      Filter(OfUser(events[0].user), events) + Grouped(Filter(NotOfUser(events[0].user), events))
  }

  lemma {:induction false} FilterShorter(p: Event -> bool, s: seq<Event>, k: nat)
    requires k < |s| && !p(s[k])
    ensures |Filter(p, s)| < |s|
    decreases |s|
  {
    FilterNotLonger(p, s[..|s| - 1]);
    if k < |s| - 1 {
      FilterShorter(p, s[..|s| - 1], k);
    }
  }

  lemma {:induction false} FilterNotLonger(p: Event -> bool, s: seq<Event>)
    ensures |Filter(p, s)| <= |s|
    decreases |s|
  {
    if s != [] {
      FilterNotLonger(p, s[..|s| - 1]);
    }
  }

  function InPartition(c: Config, w: nat): Event -> bool
    requires c.workers > 0
  {
    (ev: Event) => PartitionFor(c, ev.user) == w
  }

  ghost predicate Enabled(c: Config, s: State, a: Action) {
    match a
    case Insert(id, user) => id !in s.db
    case Fetch(w, ids) => w < |s.workers| && s.workers[w].Idle? && IsFetch(s.db, ids)
    case Claim(w, outcome) => w < |s.workers| && s.workers[w].Fetched?
    case RouteOne(w) =>
      && w < |s.workers| && s.workers[w].Routing? && s.workers[w].todo != []
      && (s.workers[w].todo[0].user in s.runtimes || s.lock.None?)
    case Lock(w) => w < |s.workers| && s.workers[w].Routing? && s.workers[w].todo == [] && s.lock.None?
    case DrainNext(w) => w < |s.workers| && s.workers[w].Processing? && s.workers[w].next < |s.order|
    case Unlock(w) => w < |s.workers| && s.workers[w].Processing? && s.workers[w].next >= |s.order|
    case Raise(w) => w < |s.workers| && !s.workers[w].Idle?
  }

  function SetWorker(s: State, w: nat, pc: Worker): State
    requires w < |s.workers|
  {
    s.(workers := s.workers[w := pc])
  }

  function DoRoute(s: State, w: nat): State
    requires w < |s.workers| && s.workers[w].Routing? && s.workers[w].todo != []
  {
    var ev := s.workers[w].todo[0];
    var s' := SetWorker(s, w, s.workers[w].(todo := s.workers[w].todo[1..]));
    if ev.user in s.runtimes then s'.(runtimes := s.runtimes[ev.user := Route(s.runtimes[ev.user], ev)])
    else s'.(runtimes := s.runtimes[ev.user := Route(NEW_RUNTIME, ev)], order := s.order + [ev.user])
  }

  function DoDrain(s: State, w: nat): State
    requires w < |s.workers| && s.workers[w].Processing? && s.workers[w].next < |s.order|
    requires s.order[s.workers[w].next] in s.runtimes
  {
    var user := s.order[s.workers[w].next];
    var s' := SetWorker(s, w, s.workers[w].(next := s.workers[w].next + 1));
    if s.runtimes[user].queue == [] then s'
    else s'.(runtimes := s.runtimes[user := Drain(s.runtimes[user])], db := Mark(s.db, s.workers[w].ids))
  }

  function Apply(c: Config, s: State, a: Action): State
    requires c.workers > 0 && Enabled(c, s, a) && forall k :: 0 <= k < |s.order| ==> s.order[k] in s.runtimes
  {
    match a
    case Insert(id, user) => s.(db := s.db[id := Row(user, false)])
    case Fetch(w, ids) =>
      var mine := Filter(InPartition(c, w), Events(s.db, ids));
      if mine == [] then s else SetWorker(s, w, Fetched(mine))
    case Claim(w, outcome) =>
      var mine := s.workers[w].mine;
      match outcome {
        case Committed => SetWorker(s, w, Routing(Ids(mine), Grouped(mine))).(db := Mark(s.db, Ids(mine)))
        case RaisedAfterEffect => SetWorker(s, w, Idle).(db := Mark(s.db, Ids(mine)))
        case RaisedBeforeEffect => SetWorker(s, w, Idle)
      }
    case RouteOne(w) => DoRoute(s, w)
    case Lock(w) => SetWorker(s, w, Processing(s.workers[w].ids, 0, |s.order|)).(lock := Some(w))
    case DrainNext(w) => DoDrain(s, w)
    case Unlock(w) => SetWorker(s, w, Idle).(lock := None)
    case Raise(w) => SetWorker(s, w, Idle).(lock := if s.lock == Some(w) then None else s.lock)
  }

  // ---- Invariant ----

  ghost predicate DistinctIds(s: seq<Event>) {
    forall j, k :: 0 <= j < k < |s| ==> s[j].id != s[k].id
  }

  /** e is a row of the database, and marked processed if `claimed`. */
  ghost predicate Recorded(db: map<nat, Row>, e: Event, claimed: bool) {
    e.id in db && db[e.id].user == e.user && (claimed ==> db[e.id].processed)
  }

  ghost predicate RuntimeInv(db: map<nat, Row>, user: string, r: Runtime) {
    && |r.queue| <= MAX_USER_QUEUE
    && HistoryInv(r.queue, r.arrived, r.popped, r.dropped)
    && DistinctIds(r.arrived)
    && forall k :: 0 <= k < |r.arrived| ==> r.arrived[k].user == user && Recorded(db, r.arrived[k], true)
  }

  ghost predicate NotArrived(runtimes: map<string, Runtime>, e: Event) {
    e.user in runtimes ==> forall k :: 0 <= k < |runtimes[e.user].arrived| ==> runtimes[e.user].arrived[k].id != e.id
  }

  /** Events a worker of partition w may still route. */
  ghost predicate Pending(c: Config, db: map<nat, Row>, runtimes: map<string, Runtime>, w: nat,
      events: seq<Event>, claimed: bool)
    requires c.workers > 0
  {
    && DistinctIds(events)
    && forall k :: 0 <= k < |events| ==>
         && PartitionFor(c, events[k].user) == w
         && Recorded(db, events[k], claimed)
         && NotArrived(runtimes, events[k])
  }

  ghost predicate WorkerInv(c: Config, s: State, w: nat)
    requires c.workers > 0 && w < |s.workers|
  {
    match s.workers[w]
    case Idle => s.lock != Some(w)
    case Fetched(mine) => s.lock != Some(w) && Pending(c, s.db, s.runtimes, w, mine, false)
    case Routing(ids, todo) => s.lock != Some(w) && Pending(c, s.db, s.runtimes, w, todo, true)
    case Processing(ids, next, size) => s.lock == Some(w) && next <= size == |s.order|
  }

  ghost predicate Inv(c: Config, s: State) {
    && c.workers > 0 && |s.workers| == c.workers
    && (forall user :: user in s.runtimes ==> RuntimeInv(s.db, user, s.runtimes[user]))
    && (forall k :: 0 <= k < |s.order| ==> s.order[k] in s.runtimes)
    && (forall w :: 0 <= w < |s.workers| ==> WorkerInv(c, s, w))
  }

  // ---- One runtime ----

  lemma RouteKeeps(db: map<nat, Row>, user: string, r: Runtime, e: Event)
    requires RuntimeInv(db, user, r) && e.user == user && Recorded(db, e, true)
    requires forall k :: 0 <= k < |r.arrived| ==> r.arrived[k].id != e.id
    ensures RuntimeInv(db, user, Route(r, e))
  {
    hide HistoryInv, Recorded;
    HistoryPush(r.queue, r.arrived, r.popped, r.dropped, e);
  }

  lemma DrainKeeps(db: map<nat, Row>, user: string, r: Runtime)
    requires RuntimeInv(db, user, r)
    ensures RuntimeInv(db, user, Drain(r))
  {
    hide HistoryInv, Recorded;
    HistoryDrain(r.queue, r.arrived, r.popped, r.dropped);
  }

  lemma NewRuntimeInv(db: map<nat, Row>, user: string)
    ensures RuntimeInv(db, user, NEW_RUNTIME)
  {
    hide HistoryInv;
    HistoryEmpty<Event>();
  }

  /** A database in which more rows exist or are marked says no less. */
  ghost predicate Extends(db: map<nat, Row>, db': map<nat, Row>) {
    forall id :: id in db ==> id in db' && db'[id].user == db[id].user && (db[id].processed ==> db'[id].processed)
  }

  lemma RuntimeExtends(db: map<nat, Row>, db': map<nat, Row>, user: string, r: Runtime)
    requires RuntimeInv(db, user, r) && Extends(db, db')
    ensures RuntimeInv(db', user, r)
  {
    hide HistoryInv, DistinctIds;
  }

  lemma PendingExtends(c: Config, db: map<nat, Row>, db': map<nat, Row>, runtimes: map<string, Runtime>, w: nat,
      events: seq<Event>, claimed: bool)
    requires c.workers > 0 && Pending(c, db, runtimes, w, events, claimed) && Extends(db, db')
    ensures Pending(c, db', runtimes, w, events, claimed)
  {
    hide DistinctIds, PartitionFor, NotArrived;
  }

  lemma ExtendsKeeps(c: Config, s: State, db': map<nat, Row>)
    requires Inv(c, s) && Extends(s.db, db')
    ensures Inv(c, s.(db := db'))
  {
    hide RuntimeInv, Pending, Extends;
    var s' := s.(db := db');
    forall user | user in s'.runtimes ensures RuntimeInv(db', user, s'.runtimes[user]) {
      RuntimeExtends(s.db, db', user, s.runtimes[user]);
    }
    forall w | 0 <= w < |s'.workers| ensures WorkerInv(c, s', w) {
      assert WorkerInv(c, s, w);
      match s.workers[w]
      case Fetched(mine) => PendingExtends(c, s.db, db', s.runtimes, w, mine, false);
      case Routing(ids, todo) => PendingExtends(c, s.db, db', s.runtimes, w, todo, true);
      case _ =>
    }
  }

  // ---- Grouping ----

  lemma DistinctSubseq(a: seq<Event>, b: seq<Event>)
    requires Subseq(a, b) && DistinctIds(b)
    ensures DistinctIds(a)
    decreases |b|
  {
    if a != [] {
      var b' := b[..|b| - 1];
      if Subseq(a, b') {
        DistinctSubseq(a, b');
      } else {
        DistinctSubseq(a[..|a| - 1], b');
        forall j | 0 <= j < |a| - 1
          ensures a[j].id != a[|a| - 1].id
        {
          SubseqElement(a[..|a| - 1], b', a[..|a| - 1][j]);
        }
      }
    }
  }

  lemma {:induction false} GroupedKeeps(events: seq<Event>)
    requires DistinctIds(events)
    ensures DistinctIds(Grouped(events))
    ensures forall e :: e in Grouped(events) <==> e in events
    decreases |events|
  {
    hide DistinctIds, Filter;
    if events != [] {
      var user := events[0].user;
      var first, rest := Filter(OfUser(user), events), Filter(NotOfUser(user), events);
      FilterShorter(NotOfUser(user), events, 0);
      FilterIsSubseq(OfUser(user), events);
      FilterIsSubseq(NotOfUser(user), events);
      DistinctSubseq(first, events);
      DistinctSubseq(rest, events);
      GroupedKeeps(rest);
      forall e ensures e in first <==> e in events && e.user == user {
        FilterElement(OfUser(user), events, e);
      }
      forall e ensures e in rest <==> e in events && e.user != user {
        FilterElement(NotOfUser(user), events, e);
      }
      DistinctJoin(events, first, Grouped(rest), user);
    } else {
      EmptyDistinct();
    }
  }

  lemma EmptyDistinct()
    ensures DistinctIds([])
  {}

  lemma DistinctJoin(events: seq<Event>, a: seq<Event>, b: seq<Event>, user: string)
    requires DistinctIds(events) && DistinctIds(a) && DistinctIds(b)
    requires forall e :: e in a ==> e in events && e.user == user
    requires forall e :: e in b ==> e in events && e.user != user
    ensures DistinctIds(a + b)
  {
    forall j, k | 0 <= j < |a| && 0 <= k < |b|
      ensures a[j].id != b[k].id
    {
      assert a[j] in a && b[k] in b;
      assert a[j] in events && b[k] in events && a[j] != b[k];
    }
  }

  /** Grouping keeps every user's events, and their order. */
  lemma {:induction false} GroupedKeepsOrder(events: seq<Event>, user: string)
    ensures Filter(OfUser(user), Grouped(events)) == Filter(OfUser(user), events)
    decreases |events|
  {
    hide Filter;
    if events != [] {
      var u := events[0].user;
      var first, rest := Filter(OfUser(u), events), Filter(NotOfUser(u), events);
      FilterShorter(NotOfUser(u), events, 0);
      GroupedKeepsOrder(rest, user);
      FilterConcat(OfUser(user), first, Grouped(rest));
      FilterTwice(OfUser(user), OfUser(u), events);
      FilterTwice(OfUser(user), NotOfUser(u), events);
      if u == user {
        assert Filter(OfUser(user), rest) == [];
      } else {
        assert Filter(OfUser(user), first) == [];
      }
    }
  }

  // ---- Every step keeps the invariant ----

  lemma InitInv(c: Config)
    requires c.workers > 0
    ensures Inv(c, InitState(c))
  {}

  lemma ArrivedIsProcessed(db: map<nat, Row>, runtimes: map<string, Runtime>, e: Event)
    requires e.user in runtimes ==> RuntimeInv(db, e.user, runtimes[e.user])
    requires e.id in db && !db[e.id].processed
    ensures NotArrived(runtimes, e)
  {
    hide HistoryInv, DistinctIds;
  }

  lemma FetchIsPending(c: Config, s: State, w: nat, ids: seq<nat>)
    requires Inv(c, s) && IsFetch(s.db, ids)
    ensures Pending(c, s.db, s.runtimes, w, Filter(InPartition(c, w), Events(s.db, ids)), false)
  {
    hide RuntimeInv, PartitionFor, Filter, Subseq, NotArrived;
    var all := Events(s.db, ids);
    var mine := Filter(InPartition(c, w), all);
    FilterIsSubseq(InPartition(c, w), all);
    DistinctSubseq(mine, all);
    forall k | 0 <= k < |mine|
      ensures PartitionFor(c, mine[k].user) == w && Recorded(s.db, mine[k], false) && NotArrived(s.runtimes, mine[k])
    {
      FilterElement(InPartition(c, w), all, mine[k]);
      ArrivedIsProcessed(s.db, s.runtimes, mine[k]);
    }
  }

  lemma FetchKeeps(c: Config, s: State, w: nat, ids: seq<nat>)
    requires Inv(c, s) && Enabled(c, s, Fetch(w, ids))
    ensures Inv(c, Apply(c, s, Fetch(w, ids)))
  {
    hide RuntimeInv, Pending, Filter, IsFetch, InPartition;
    FetchIsPending(c, s, w, ids);
    var s' := Apply(c, s, Fetch(w, ids));
    forall v | 0 <= v < |s'.workers| ensures WorkerInv(c, s', v) {
      assert WorkerInv(c, s, v);
    }
  }

  /** The claim's commit marks exactly the rows the worker will route. */
  lemma ClaimIsPending(c: Config, db: map<nat, Row>, runtimes: map<string, Runtime>, w: nat, mine: seq<Event>)
    requires c.workers > 0 && Pending(c, db, runtimes, w, mine, false)
    ensures Pending(c, Mark(db, Ids(mine)), runtimes, w, Grouped(mine), true)
  {
    hide PartitionFor, Grouped, NotArrived;
    var todo, db' := Grouped(mine), Mark(db, Ids(mine));
    GroupedKeeps(mine);
    forall k | 0 <= k < |todo|
      ensures PartitionFor(c, todo[k].user) == w && Recorded(db', todo[k], true) && NotArrived(runtimes, todo[k])
    {
      assert todo[k] in mine;
      var j :| 0 <= j < |mine| && mine[j] == todo[k];
      assert Ids(mine)[j] == todo[k].id;
    }
  }

  lemma MarkExtends(db: map<nat, Row>, ids: seq<nat>)
    ensures Extends(db, Mark(db, ids))
  {}

  lemma ClaimKeeps(c: Config, s: State, w: nat, outcome: Commit)
    requires Inv(c, s) && Enabled(c, s, Claim(w, outcome))
    ensures Inv(c, Apply(c, s, Claim(w, outcome)))
  {
    hide Pending, RuntimeInv, Grouped, Mark, Extends;
    var mine := s.workers[w].mine;
    assert WorkerInv(c, s, w);
    ClaimIsPending(c, s.db, s.runtimes, w, mine);
    MarkExtends(s.db, Ids(mine));
    ExtendsKeeps(c, s, Mark(s.db, Ids(mine)));
    var s1 := s.(db := Mark(s.db, Ids(mine)));
    var s' := Apply(c, s, Claim(w, outcome));
    forall v | 0 <= v < |s'.workers| ensures WorkerInv(c, s', v) {
      assert WorkerInv(c, s1, v) && WorkerInv(c, s, v);
    }
  }

  lemma RouteStepKeeps(c: Config, s: State, w: nat)
    requires Inv(c, s) && Enabled(c, s, RouteOne(w))
    ensures Inv(c, DoRoute(s, w))
  {
    hide HistoryInv, PartitionFor, RuntimeInv, Route, Pending;
    assert WorkerInv(c, s, w);
    var todo := s.workers[w].todo;
    var e := todo[0];
    var r := if e.user in s.runtimes then s.runtimes[e.user] else NEW_RUNTIME;
    NewRuntimeInv(s.db, e.user);
    PendingHead(c, s.db, s.runtimes, w, todo);
    RouteKeeps(s.db, e.user, r, e);
    RouteArrived(r, e);
    var s' := DoRoute(s, w);
    forall v | 0 <= v < |s'.workers|
      ensures WorkerInv(c, s', v)
    {
      assert WorkerInv(c, s, v);
      if v == w {
        PendingTail(c, s.db, s.runtimes, w, todo, Route(r, e));
      } else {
        match s.workers[v]
        case Fetched(mine) => PendingOther(c, s.db, s.runtimes, v, mine, false, e, Route(r, e));
        case Routing(ids, rest) => PendingOther(c, s.db, s.runtimes, v, rest, true, e, Route(r, e));
        case _ =>
      }
    }
  }

  lemma PendingHead(c: Config, db: map<nat, Row>, runtimes: map<string, Runtime>, w: nat, todo: seq<Event>)
    requires c.workers > 0 && Pending(c, db, runtimes, w, todo, true) && todo != []
    ensures Recorded(db, todo[0], true) && NotArrived(runtimes, todo[0]) && PartitionFor(c, todo[0].user) == w
  {}

  lemma PendingTail(c: Config, db: map<nat, Row>, runtimes: map<string, Runtime>, w: nat, todo: seq<Event>, r': Runtime)
    requires c.workers > 0 && Pending(c, db, runtimes, w, todo, true) && todo != []
    requires r'.arrived == (if todo[0].user in runtimes then runtimes[todo[0].user] else NEW_RUNTIME).arrived + [todo[0]]
    ensures Pending(c, db, runtimes[todo[0].user := r'], w, todo[1..], true)
  {
    hide PartitionFor, Recorded;
  }

  /** Another partition's events belong to other users. */
  lemma PendingOther(c: Config, db: map<nat, Row>, runtimes: map<string, Runtime>, v: nat, events: seq<Event>,
      claimed: bool, e: Event, r': Runtime)
    requires c.workers > 0 && Pending(c, db, runtimes, v, events, claimed) && PartitionFor(c, e.user) != v
    ensures Pending(c, db, runtimes[e.user := r'], v, events, claimed)
  {
    hide PartitionFor, Recorded, DistinctIds;
  }

  lemma RouteArrived(r: Runtime, e: Event)
    ensures Route(r, e).arrived == r.arrived + [e]
  {}

  lemma PendingDrained(c: Config, db: map<nat, Row>, runtimes: map<string, Runtime>, v: nat, events: seq<Event>,
      claimed: bool, user: string)
    requires c.workers > 0 && Pending(c, db, runtimes, v, events, claimed) && user in runtimes
    ensures Pending(c, db, runtimes[user := Drain(runtimes[user])], v, events, claimed)
  {
    hide PartitionFor, Recorded, DistinctIds;
  }

  lemma DrainStepKeeps(c: Config, s: State, w: nat)
    requires Inv(c, s) && Enabled(c, s, DrainNext(w))
    ensures Inv(c, DoDrain(s, w))
  {
    hide RuntimeInv, Pending, Mark, Drain, Extends;
    assert WorkerInv(c, s, w);
    var user := s.order[s.workers[w].next];
    var db' := Mark(s.db, s.workers[w].ids);
    DrainKeeps(s.db, user, s.runtimes[user]);
    var s1 := s.(runtimes := s.runtimes[user := Drain(s.runtimes[user])]);
    forall v | 0 <= v < |s.workers| ensures WorkerInv(c, s1, v) && WorkerInv(c, s, v) {
      assert WorkerInv(c, s, v);
      match s.workers[v]
      case Fetched(mine) => PendingDrained(c, s.db, s.runtimes, v, mine, false, user);
      case Routing(ids, rest) => PendingDrained(c, s.db, s.runtimes, v, rest, true, user);
      case _ =>
    }
    MarkExtends(s.db, s.workers[w].ids);
    ExtendsKeeps(c, s1, db');
    var s2, s' := s1.(db := db'), DoDrain(s, w);
    forall v | 0 <= v < |s'.workers| ensures WorkerInv(c, s', v) {
      assert WorkerInv(c, s2, v) && WorkerInv(c, s, v);
    }
  }

  lemma LockStepKeeps(c: Config, s: State, a: Action)
    requires Inv(c, s) && Enabled(c, s, a) && (a.Lock? || a.Unlock? || a.Raise?)
    ensures Inv(c, Apply(c, s, a))
  {
    hide RuntimeInv, Pending;
    var s' := Apply(c, s, a);
    forall v | 0 <= v < |s.workers| ensures WorkerInv(c, s', v) {
      assert WorkerInv(c, s, v) && WorkerInv(c, s, a.w);
    }
  }

  lemma StepKeeps(c: Config, s: State, a: Action)
    requires Inv(c, s) && Enabled(c, s, a)
    ensures Inv(c, Apply(c, s, a))
  {
    hide RuntimeInv, WorkerInv, Filter, Grouped, DoRoute, DoDrain, InPartition;
    match a
    case Insert(id, user) => ExtendsKeeps(c, s, s.db[id := Row(user, false)]);
    case Fetch(w, ids) => FetchKeeps(c, s, w, ids);
    case Claim(w, outcome) => ClaimKeeps(c, s, w, outcome);
    case RouteOne(w) => RouteStepKeeps(c, s, w);
    case DrainNext(w) => DrainStepKeeps(c, s, w);
    case _ => LockStepKeeps(c, s, a);
  }

  // ---- Runs ----

  ghost predicate Run(c: Config, s: State, steps: seq<Action>, s': State)
    requires Inv(c, s)
    decreases |steps|
  {
    if steps == [] then s' == s
    else Enabled(c, s, steps[0]) && (StepKeeps(c, s, steps[0]); Run(c, Apply(c, s, steps[0]), steps[1..], s'))
  }

  lemma {:induction false} RunKeeps(c: Config, s: State, steps: seq<Action>, s': State)
    requires Inv(c, s) && Run(c, s, steps, s')
    ensures Inv(c, s')
    decreases |steps|
  {
    hide Apply, RuntimeInv, WorkerInv;
    if steps != [] {
      StepKeeps(c, s, steps[0]);
      RunKeeps(c, Apply(c, s, steps[0]), steps[1..], s');
    }
  }

  ghost predicate Reachable(c: Config, s: State) {
    c.workers > 0 && (InitInv(c); exists steps :: Run(c, InitState(c), steps, s))
  }

  lemma ReachableInv(c: Config, s: State)
    requires Reachable(c, s)
    ensures Inv(c, s)
  {
    hide RuntimeInv, WorkerInv;
    InitInv(c);
    var steps :| Run(c, InitState(c), steps, s);
    RunKeeps(c, InitState(c), steps, s);
  }

  // ---- What holds in every reachable state ----

  /** Each event enters a runtime queue at most once, over all users and workers. */
  lemma EventsArriveOnce(c: Config, s: State, u: string, j: nat, v: string, k: nat)
    requires Reachable(c, s) && u in s.runtimes && v in s.runtimes
    requires j < |s.runtimes[u].arrived| && k < |s.runtimes[v].arrived|
    requires s.runtimes[u].arrived[j].id == s.runtimes[v].arrived[k].id
    ensures u == v && j == k
  {
    hide WorkerInv, HistoryInv;
    ReachableInv(c, s);
    assert RuntimeInv(s.db, u, s.runtimes[u]) && RuntimeInv(s.db, v, s.runtimes[v]);
  }

  /** Each event is popped at most once, and a user's events are popped in the order in which
      they arrived. */
  lemma EventsArePoppedOnce(c: Config, s: State, u: string, j: nat, v: string, k: nat)
    requires Reachable(c, s) && u in s.runtimes && v in s.runtimes
    requires j < |s.runtimes[u].popped| && k < |s.runtimes[v].popped|
    requires s.runtimes[u].popped[j].id == s.runtimes[v].popped[k].id
    ensures u == v && j == k && Subseq(s.runtimes[u].popped, s.runtimes[u].arrived)
  {
    hide WorkerInv, HistoryInv, Subseq;
    ReachableInv(c, s);
    PoppedArrived(s.db, u, s.runtimes[u]);
    PoppedArrived(s.db, v, s.runtimes[v]);
    assert s.runtimes[u].popped[j] in s.runtimes[u].popped && s.runtimes[v].popped[k] in s.runtimes[v].popped;
    var j' :| 0 <= j' < |s.runtimes[u].arrived| && s.runtimes[u].arrived[j'] == s.runtimes[u].popped[j];
    var k' :| 0 <= k' < |s.runtimes[v].arrived| && s.runtimes[v].arrived[k'] == s.runtimes[v].popped[k];
    EventsArriveOnce(c, s, u, j', v, k');
  }

  lemma PoppedArrived(db: map<nat, Row>, user: string, r: Runtime)
    requires RuntimeInv(db, user, r)
    ensures Subseq(r.popped, r.arrived) && DistinctIds(r.popped)
    ensures forall e :: e in r.popped ==> e in r.arrived
  {
    hide HistoryInv, Subseq;
    TakenInOrder(r.queue, r.arrived, r.popped, r.dropped);
    DistinctSubseq(r.popped, r.arrived);
    forall e | e in r.popped ensures e in r.arrived {
      SubseqElement(r.popped, r.arrived, e);
    }
  }

  /** A user's queue holds at most MAX_USER_QUEUE events, all of that user and all already
      marked processed in the database; what arrived was popped, dropped or is queued. */
  lemma QueuesAreClaimed(c: Config, s: State, user: string)
    requires Reachable(c, s) && user in s.runtimes
    ensures var r := s.runtimes[user];
      && |r.queue| <= 10000
      && |r.arrived| == |r.popped| + r.dropped + |r.queue|
      && forall e :: e in r.queue ==> e.user == user && e.id in s.db && s.db[e.id].processed
  {
    hide WorkerInv, Subseq, DistinctIds;
    ReachableInv(c, s);
    assert RuntimeInv(s.db, user, s.runtimes[user]);
  }

  /** The dictionary of runtimes is never resized while a worker iterates over it. */
  lemma NoResizeWhileIterating(c: Config, s: State, w: nat, a: Action)
    requires Reachable(c, s) && w < |s.workers| && s.workers[w].Processing? && Enabled(c, s, a)
    ensures Inv(c, s) && Apply(c, s, a).order == s.order && Apply(c, s, a).runtimes.Keys == s.runtimes.Keys
    ensures s.workers[w].size == |s.order|
  {
    hide RuntimeInv, Filter, Grouped, InPartition, Pending;
    ReachableInv(c, s);
    assert WorkerInv(c, s, w);
  }
}
