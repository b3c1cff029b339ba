/** The stores per address, host, user, session and process of include/ids_memory.hpp:179-221
    and the retriever's writes and clean-ups (300-333). */
module KeyedStores {
  import opened Subsequences
  import opened VectorStore

  /** What operator[] creates for a key seen for the first time. */
  const NEW_STORE := Store([], 0, 100000, 86400.0)

  const HOST_SCORE := 0.50

  datatype Scope = Host | User | Ip | Session | Process

  function Field(scope: Scope, key: MemoryKey): string {
    match scope
    case Host => key.host
    case User => key.user
    case Ip => key.ip
    case Session => key.session
    case Process => key.process
  }

  type Stores = map<string, Store>

  function Get(m: Stores, key: string): Store {
    if key in m then m[key] else NEW_STORE
  }

  /** A store is sound, within its size, and holds only records whose key names it. */
  ghost predicate StoreOk(s: Store, scope: Scope, k: string) {
    && StoreInv(s) && |s.records| <= s.maxSize && s.maxSize >= 3
    && forall r :: r in multiset(s.records) ==> Field(scope, r.key) == k
  }

  ghost predicate KeyedInv(m: Stores, scope: Scope) {
    forall k :: k in m ==> StoreOk(m[k], scope, k)
  }

  /** The record went into the store of this key and nothing else changed. */
  ghost predicate Wrote(m: Stores, m': Stores, k: string, r: Record, now: real) {
    && m'.Keys == m.Keys + {k}
    && (forall j :: j in m && j != k ==> m'[j] == m[j])
    && InsertStep(Get(m, k), m'[k], r, now)
  }

  lemma InsertOk(s: Store, s': Store, scope: Scope, k: string, r: Record, now: real)
    requires StoreOk(s, scope, k) && InsertStep(s, s', r, now) && Field(scope, r.key) == k
    ensures StoreOk(s', scope, k)
  {
    hide Filter, InsertStep, StoreInv, Field;
    InsertKeeps(s, s', r, now);
    InsertIsBounded(s, s', r, now);
    InsertComesFrom(s, s', r, now);
    StepKeepsLimits(s, s', r, now);
    var x := r.(id := s.nextId);
    forall y | y in multiset(s'.records) ensures Field(scope, y.key) == k {
      assert y in multiset(s.records + [x]);
      assert multiset(s.records + [x]) == multiset(s.records) + multiset{x};
    }
  }

  lemma WriteKeeps(m: Stores, m': Stores, scope: Scope, k: string, r: Record, now: real)
    requires KeyedInv(m, scope) && Wrote(m, m', k, r, now) && Field(scope, r.key) == k
    ensures KeyedInv(m', scope)
  {
    hide InsertStep, StoreOk, Field;
    NewStoreOk(scope, k);
    InsertOk(Get(m, k), m'[k], scope, k, r, now);
  }

  lemma NewStoreOk(scope: Scope, k: string)
    ensures StoreOk(NEW_STORE, scope, k)
  {
    hide Field;
    NewStoreInv();
  }

  lemma RemoveKeeps(m: Stores, scope: Scope, k: string)
    requires KeyedInv(m, scope)
    ensures KeyedInv(m - {k}, scope)
  {
    hide StoreOk;
  }

  lemma NewStoreInv()
    ensures StoreInv(NEW_STORE)
  {}

  lemma StepKeepsLimits(s: Store, s': Store, r: Record, now: real)
    requires InsertStep(s, s', r, now)
    ensures s'.maxSize == s.maxSize && s'.ttl == s.ttl
  {
    hide Filter;
  }

  method WriteAt(m: Stores, scope: Scope, k: string, r: Record, now: real) returns (m': Stores)
    requires KeyedInv(m, scope) && Field(scope, r.key) == k
    ensures Wrote(m, m', k, r, now) && KeyedInv(m', scope)
  {
    hide KeyedInv, InsertStep, Field;
    var s := Insert(Get(m, k), r, now);
    m' := m[k := s];
    WriteKeeps(m, m', scope, k, r, now);
  }

  /** Removes the store of a named key. */
  method Erase(m: Stores, scope: Scope, k: string) returns (m': Stores)
    requires KeyedInv(m, scope)
    ensures KeyedInv(m', scope) && m' == if k != "" then m - {k} else m
  {
    hide KeyedInv;
    m' := m;
    if k != "" {
      RemoveKeeps(m, scope, k);
      m' := m - {k};
    }
  }

  /** What a sweep leaves of every store. */
  ghost predicate Swept(m: Stores, m': Stores, now: real, maxAge: real) {
    m'.Keys == m.Keys && forall k :: k in m ==> m'[k] == m[k].(records := Filter(Young(now, maxAge), m[k].records))
  }

  method SweepAll(m: Stores, scope: Scope, now: real, maxAge: real) returns (m': Stores)
    requires KeyedInv(m, scope)
    ensures Swept(m, m', now, maxAge) && KeyedInv(m', scope)
  {
    hide Filter, KeyedInv;
    m' := m;
    var todo := m.Keys;
    while todo != {}
      invariant todo <= m.Keys && m'.Keys == m.Keys
      invariant forall k :: k in m ==>
        m'[k] == if k in todo then m[k] else m[k].(records := Filter(Young(now, maxAge), m[k].records))
      decreases |todo|
    {
      var k :| k in todo;
      var s := Sweep(m'[k], now, maxAge);
      m' := m'[k := s];
      todo := todo - {k};
    }
    SweepKeeps(m, m', scope, now, maxAge);
  }

  lemma SweepOk(s: Store, scope: Scope, k: string, now: real, maxAge: real)
    requires StoreOk(s, scope, k)
    ensures StoreOk(s.(records := Filter(Young(now, maxAge), s.records)), scope, k)
  {
    hide Filter, Field, UniqueIds;
    FilterSubMultiset(Young(now, maxAge), s.records);
    SubMultisetUnique(multiset(s.records), multiset(Filter(Young(now, maxAge), s.records)));
  }

  lemma SweepKeeps(m: Stores, m': Stores, scope: Scope, now: real, maxAge: real)
    requires KeyedInv(m, scope) && Swept(m, m', now, maxAge)
    ensures KeyedInv(m', scope)
  {
    hide Filter, StoreOk;
    forall k | k in m' ensures StoreOk(m'[k], scope, k) {
      SweepOk(m[k], scope, k, now, maxAge);
    }
  }

  datatype CleanupReason = SessionEnd | StateExpired | HostRemoved | Manual

  class MemoryStore {
    var global: Store
    var ip: Stores
    var user: Stores
    var host: Stores
    var session: Stores
    var process: Stores

    ghost predicate Valid()
      reads this
    {
      && StoreInv(global) && |global.records| <= global.maxSize && global.maxSize >= 3
      && KeyedInv(ip, Ip) && KeyedInv(user, User) && KeyedInv(host, Host)
      && KeyedInv(session, Session) && KeyedInv(process, Process)
    }

    constructor ()
      ensures Valid() && global == NEW_STORE && ip == user == host == session == process == map[]
    {
      global := NEW_STORE;
      ip, user, host, session, process := map[], map[], map[], map[], map[];
    }

    method WriteGlobal(r: Record, now: real)
      requires Valid()
      modifies this`global
      ensures Valid() && InsertStep(old(global), global, r, now)
    {
      hide KeyedInv, InsertStep, StoreInv;
      var s := Insert(global, r, now);
      InsertKeeps(global, s, r, now);
      InsertIsBounded(global, s, r, now);
      StepKeepsLimits(global, s, r, now);
      global := s;
    }

    /** write_record: each store receives the record under its own key, exactly when the key is
        present and the score reaches the store's gate. */
    method WriteRecord(rec: Record, key: MemoryKey, anomaly: real, forceGate: real, now: real)
      requires Valid()
      modifies this
      ensures Valid()
      ensures var r := rec.(key := key);
        && Wrote(old(ip), ip, key.ip, r, now)
        && (if key.user != "" then Wrote(old(user), user, key.user, r, now) else user == old(user))
        && (if anomaly >= 0.50 && key.host != "" then Wrote(old(host), host, key.host, r, now) else host == old(host))
        && (if anomaly >= forceGate then InsertStep(old(global), global, r, now) else global == old(global))
        && (if key.session != "" then Wrote(old(session), session, key.session, r, now) else session == old(session))
        && (if key.process != "" then Wrote(old(process), process, key.process, r, now) else process == old(process))
    {
      hide KeyedInv, InsertStep, StoreInv, Wrote;
      var r := rec.(key := key);
      ip := WriteAt(ip, Ip, key.ip, r, now);
      if key.user != "" {
        user := WriteAt(user, User, key.user, r, now);
      }
      if anomaly >= HOST_SCORE && key.host != "" {
        host := WriteAt(host, Host, key.host, r, now);
      }
      if anomaly >= forceGate {
        WriteGlobal(r, now);
      }
      if key.session != "" {
        session := WriteAt(session, Session, key.session, r, now);
      }
      if key.process != "" {
        process := WriteAt(process, Process, key.process, r, now);
      }
    }

    method StoreAnomaly(r: Record, now: real)
      requires Valid()
      modifies this
      ensures Valid() && InsertStep(old(global), global, r, now)
      ensures if r.key.ip != "" then Wrote(old(ip), ip, r.key.ip, r, now) else ip == old(ip)
      ensures user == old(user) && host == old(host) && session == old(session) && process == old(process)
    {
      hide KeyedInv, InsertStep, StoreInv, Wrote;
      WriteGlobal(r, now);
      if r.key.ip != "" {
        ip := WriteAt(ip, Ip, r.key.ip, r, now);
      }
    }

    method Cleanup(key: MemoryKey, reason: CleanupReason)
      requires Valid()
      modifies this
      ensures Valid() && global == old(global)
      ensures ip == (if key.ip != "" then old(ip) - {key.ip} else old(ip))
      ensures session == (if key.session != "" then old(session) - {key.session} else old(session))
      ensures host == (if reason == HostRemoved && key.host != "" then old(host) - {key.host} else old(host))
      ensures user == (if reason == Manual && key.user != "" then old(user) - {key.user} else old(user))
      ensures process == (if reason == Manual && key.process != "" then old(process) - {key.process} else old(process))
    {
      hide StoreInv, KeyedInv;
      ip := Erase(ip, Ip, key.ip);
      session := Erase(session, Session, key.session);
      if reason == HostRemoved {
        host := Erase(host, Host, key.host);
      }
      if reason == Manual {
        user := Erase(user, User, key.user);
        process := Erase(process, Process, key.process);
      }
    }

    method SweepStores(now: real, maxAge: real)
      requires Valid()
      modifies this
      ensures Valid()
      ensures global == old(global).(records := Filter(Young(now, maxAge), old(global).records))
      ensures Swept(old(ip), ip, now, maxAge) && Swept(old(user), user, now, maxAge) && Swept(old(host), host, now, maxAge)
      ensures Swept(old(session), session, now, maxAge) && Swept(old(process), process, now, maxAge)
    {
      hide KeyedInv, Swept, Filter;
      FilterSubMultiset(Young(now, maxAge), global.records);
      SubMultisetUnique(multiset(global.records), multiset(Filter(Young(now, maxAge), global.records)));
      global := Sweep(global, now, maxAge);
      ip := SweepAll(ip, Ip, now, maxAge);
      host := SweepAll(host, Host, now, maxAge);
      user := SweepAll(user, User, now, maxAge);
      session := SweepAll(session, Session, now, maxAge);
      process := SweepAll(process, Process, now, maxAge);
    }
  }
}
