/** What a vector store keeps, over single inserts and over runs of them, and what its ranking
    rewards. */
module StoreLaws {
  import opened Subsequences
  import opened VectorStore
  import opened KeyedStores

  /** The record as it is stored. */
  function Stamped(s: Store, r: Record): Record {
    r.(id := s.nextId)
  }

  lemma {:induction false} YoungStay(now: real, ttl: real, s: seq<Record>, y: Record)
    ensures y in Filter(Young(now, ttl), s) <==> y in s && now - y.insertedAt <= ttl
    decreases |s|
  {
    if s != [] {
      YoungStay(now, ttl, s[..|s| - 1], y);
      assert s == s[..|s| - 1] + [s[|s| - 1]];
    }
  }

  /** What an insert keeps: everything, while there is room; exactly the records within their
      time to live, the new one included, if these fit; else three quarters of these, rounded
      up, and none that is too old. */
  lemma SurvivorsExactly(s: Store, s': Store, r: Record, now: real, y: Record)
    requires InsertStep(s, s', r, now)
    ensures s'.nextId == s.nextId + 1
    ensures |s.records| < s.maxSize ==> s'.records == s.records + [Stamped(s, r)]
    ensures |s.records| >= s.maxSize ==>
      var all := s.records + [Stamped(s, r)];
      var m := |Filter(Young(now, s.ttl), all)|;
      && (m <= s.maxSize ==> (y in s'.records <==> y in all && now - y.insertedAt <= s.ttl) && |s'.records| == m)
      && (m > s.maxSize ==> (y in s'.records ==> y in all && now - y.insertedAt <= s.ttl) && |s'.records| == m - m / 4)
  {
    hide Filter;
    var all := s.records + [Stamped(s, r)];
    YoungStay(now, s.ttl, all, y);
    if |s.records| >= s.maxSize && |Filter(Young(now, s.ttl), all)| > s.maxSize && y in s'.records {
      assert y in multiset(s'.records);
      assert y in multiset(Filter(Young(now, s.ttl), all));
    }
  }

  /** The new record survives its own insert unless a quarter had to go and it scored no more
      than all that stayed. */
  lemma NewcomerStays(s: Store, s': Store, r: Record, now: real)
    requires InsertStep(s, s', r, now) && now - r.insertedAt <= s.ttl
    ensures Stamped(s, r) in s'.records
         || (s'.records != [] ==> forall y :: y in s'.records ==> r.score <= y.score)
  {
    hide Filter;
    var x := Stamped(s, r);
    var all := s.records + [x];
    assert x == all[|s.records|];
    YoungStay(now, s.ttl, all, x);
    var young := Filter(Young(now, s.ttl), all);
    if x !in s'.records && |all| > s.maxSize && |young| > s.maxSize {
      assert x in multiset(young) && x !in multiset(s'.records);
      forall y | y in s'.records ensures r.score <= y.score {
        assert y in multiset(s'.records);
      }
    }
  }

  // ---- Runs of inserts ----

  /** s' is s after these inserts. */
  ghost predicate Inserts(s: Store, rs: seq<Record>, times: seq<real>, s': Store)
    requires |rs| == |times|
    decreases |rs|
  {
    if rs == [] then s' == s
    else
      var n := |rs| - 1;
      exists t: Store :: Inserts(s, rs[..n], times[..n], t) && InsertStep(t, s', rs[n], times[n])
  }

  /** The records with consecutive ids. */
  function Numbered(rs: seq<Record>, first: nat): (out: seq<Record>)
    ensures |out| == |rs|
  {
    seq(|rs|, k requires 0 <= k < |rs| => rs[k].(id := first + k))
  }

  /** As long as the limit is not reached, a store holds all that was inserted, in order, under
      consecutive ids. */
  lemma {:induction false} NothingIsLostBelowLimit(s: Store, rs: seq<Record>, times: seq<real>, s': Store)
    requires |rs| == |times| && Inserts(s, rs, times, s') && |s.records| + |rs| <= s.maxSize
    ensures s'.records == s.records + Numbered(rs, s.nextId)
    ensures s'.nextId == s.nextId + |rs| && s'.maxSize == s.maxSize && s'.ttl == s.ttl
    decreases |rs|
  {
    hide InsertStep, Numbered;
    if rs == [] {
      assert Numbered(rs, s.nextId) == [];
    } else {
      var n := |rs| - 1;
      var t: Store :| Inserts(s, rs[..n], times[..n], t) && InsertStep(t, s', rs[n], times[n]);
      hide Inserts;
      NothingIsLostBelowLimit(s, rs[..n], times[..n], t);
      RoomForOne(t, s', rs[n], times[n]);
      NumberedSnoc(rs, s.nextId);
    }
  }

  lemma RoomForOne(s: Store, s': Store, r: Record, now: real)
    requires InsertStep(s, s', r, now) && |s.records| < s.maxSize
    ensures s'.records == s.records + [r.(id := s.nextId)]
    ensures s'.nextId == s.nextId + 1 && s'.maxSize == s.maxSize && s'.ttl == s.ttl
  {
    hide Filter;
  }

  lemma NumberedSnoc(rs: seq<Record>, first: nat)
    requires rs != []
    ensures var n := |rs| - 1; Numbered(rs, first) == Numbered(rs[..n], first) + [rs[n].(id := first + n)]
  {}

  // ---- Ranking ----

  ghost predicate Nondecreasing(f: real -> real) {
    forall a, b :: a <= b ==> f(a) <= f(b)
  }

  /** A record at least as similar, as anomalous and as recent as another ranks at least as high. */
  lemma DominanceRanks(q: Query, now: real, a: Record, b: Record)
    requires q.wSim >= 0.0 && q.wAnomaly >= 0.0 && q.wTime >= 0.0 && Nondecreasing(q.exp)
    requires q.cosine(q.embedding, a.embedding) >= q.cosine(q.embedding, b.embedding)
    requires a.score >= b.score && a.insertedAt >= b.insertedAt
    ensures Rank(q, now)(a) >= Rank(q, now)(b)
  {
    hide Part, Fresh;
    RankIsSum(q, now, a);
    RankIsSum(q, now, b);
    FreshGrows(q, now, a, b);
    PartGrows(q.cosine(q.embedding, b.embedding), q.cosine(q.embedding, a.embedding), q.wSim);
    PartGrows(b.score, a.score, q.wAnomaly);
    PartGrows(Fresh(q, now, b), Fresh(q, now, a), q.wTime);
  }

  function Part(x: real, w: real): real {
    x * w
  }

  /** How recent a record counts as. */
  function Fresh(q: Query, now: real, r: Record): real {
    q.exp(-(now - r.insertedAt) / (if q.recencyTau < 1.0 then 1.0 else q.recencyTau))
  }

  lemma RankIsSum(q: Query, now: real, r: Record)
    ensures Rank(q, now)(r)
         == Part(q.cosine(q.embedding, r.embedding), q.wSim) + Part(r.score, q.wAnomaly) + Part(Fresh(q, now, r), q.wTime)
            + q.scopeWeight
  {}

  lemma FreshGrows(q: Query, now: real, a: Record, b: Record)
    requires Nondecreasing(q.exp) && a.insertedAt >= b.insertedAt
    ensures Fresh(q, now, b) <= Fresh(q, now, a)
  {
    var tau := if q.recencyTau < 1.0 then 1.0 else q.recencyTau;
    Quotients(-(now - b.insertedAt), -(now - a.insertedAt), tau);
  }

  lemma PartGrows(x: real, y: real, w: real)
    requires x <= y && w >= 0.0
    ensures Part(x, w) <= Part(y, w)
  {}

  lemma Quotients(x: real, y: real, d: real)
    requires x <= y && d > 0.0
    ensures x / d <= y / d
  {}

  /** Alone at weight 1, each part is the rank: the similarity, the record's own score, and a
      recency that fades by exp over recency_tau, at least one second. */
  lemma RankParts(q: Query, now: real, r: Record)
    ensures var tau := if q.recencyTau < 1.0 then 1.0 else q.recencyTau;
      && Rank(q.(wSim := 1.0, wAnomaly := 0.0, wTime := 0.0, scopeWeight := 0.0), now)(r) == q.cosine(q.embedding, r.embedding)
      && Rank(q.(wSim := 0.0, wAnomaly := 1.0, wTime := 0.0, scopeWeight := 0.0), now)(r) == r.score
      && Rank(q.(wSim := 0.0, wAnomaly := 0.0, wTime := 1.0, scopeWeight := 0.0), now)(r) == q.exp((r.insertedAt - now) / tau)
      && Rank(q.(wSim := 0.0, wAnomaly := 0.0, wTime := 0.0), now)(r) == q.scopeWeight
  {}

  // ---- Results ----

  /** The places of the records no older than max_age. */
  function Candidates(s: Store, now: real, maxAge: real): set<nat> {
    set i: nat | i < |s.records| && now - s.records[i].insertedAt <= maxAge
  }

  function Elements(picked: seq<nat>): set<nat> {
    set a | a in picked
  }

  /** A search returns as many records as asked for, or all that are young enough. */
  lemma ResultSize(s: Store, now: real, maxAge: real, rank: Record -> real, k: nat, picked: seq<nat>, out: seq<Record>)
    requires Best(s, now, maxAge, rank, k, picked) && Shows(s, rank, picked, out)
    ensures var n := |Candidates(s, now, maxAge)|; |out| == if k < n then k else n
  {
    var all, chosen := Candidates(s, now, maxAge), Elements(picked);
    DistinctSize(picked);
    forall i | i in chosen ensures i in all {
      assert Eligible(s, now, maxAge, i);
    }
    SubsetSize(chosen, all);
    if |picked| < k {
      forall i | i in all ensures i in chosen {
        assert Eligible(s, now, maxAge, i);
      }
      assert chosen == all;
    }
  }

  lemma {:induction false} DistinctSize(picked: seq<nat>)
    requires forall a, b :: 0 <= a < b < |picked| ==> picked[a] != picked[b]
    ensures |Elements(picked)| == |picked|
    decreases |picked|
  {
    if picked != [] {
      var n := |picked| - 1;
      DistinctSize(picked[..n]);
      assert picked == picked[..n] + [picked[n]];
      assert Elements(picked) == Elements(picked[..n]) + {picked[n]};
      assert picked[n] !in Elements(picked[..n]);
    }
  }

  lemma SubsetSize(a: set<nat>, b: set<nat>)
    requires a <= b
    ensures |a| <= |b|
  {
    assert b == a + (b - a);
  }

  // ---- Keyed stores ----

  /** The first record under a key opens a store of 100000 records and one day with it; a later
      one goes behind those already there, as long as there is room. */
  lemma KeyedWrite(m: Stores, m': Stores, k: string, r: Record, now: real)
    requires Wrote(m, m', k, r, now)
    ensures k !in m ==> m'[k] == Store([r.(id := 0)], 1, 100000, 86400.0)
    ensures k in m && |m[k].records| < m[k].maxSize ==> m'[k].records == m[k].records + [r.(id := m[k].nextId)]
    ensures forall j :: j in m' && j != k ==> j in m && m'[j] == m[j]
  {
    hide Filter;
    assert [] + [r.(id := 0)] == [r.(id := 0)];
  }

  /** In each of the five scopes a store's records carry the store's key where the scope says. */
  lemma ScopesHoldTheirOwn(m: Stores, k: string, r: Record)
    requires k in m && r in m[k].records
    ensures KeyedInv(m, Ip) ==> r.key.ip == k
    ensures KeyedInv(m, User) ==> r.key.user == k
    ensures KeyedInv(m, Host) ==> r.key.host == k
    ensures KeyedInv(m, Session) ==> r.key.session == k
    ensures KeyedInv(m, Process) ==> r.key.process == k
  {
    hide StoreInv;
    assert r in multiset(m[k].records);
  }
}
