/** VectorStore and the keyed stores of include/ids_memory.hpp. Stores are values; the order
    among equal scores is left open, as std::partial_sort leaves it. */
module VectorStore {
  import opened Subsequences

  datatype MemoryKey = MemoryKey(host: string, user: string, ip: string, session: string, process: string)

  datatype Record = Record(id: nat, embedding: seq<real>, score: real, tag: string, insertedAt: real, key: MemoryKey)

  datatype Store = Store(records: seq<Record>, nextId: nat, maxSize: nat, ttl: real)

  // ---- std::partial_sort ----

  lemma SwapKeeps<T>(s: seq<T>, i: nat, j: nat)
    requires i < |s| && j < |s|
    ensures multiset(s[i := s[j]][j := s[i]]) == multiset(s)
  {}

  method PartialSort<T>(s: seq<T>, key: T -> real, n: nat) returns (r: seq<T>)
    requires n <= |s|
    ensures multiset(r) == multiset(s) && |r| == |s|
    ensures forall i, j :: 0 <= i < n && i < j < |r| ==> key(r[i]) <= key(r[j])
  {
    r := s;
    for i := 0 to n
      invariant |r| == |s| && multiset(r) == multiset(s)
      invariant forall k, j :: 0 <= k < i && k < j < |r| ==> key(r[k]) <= key(r[j])
    {
      var m := IndexOfLeast(r, key, i);
      SwapKeeps(r, i, m);
      r := r[i := r[m]][m := r[i]];
    }
  }

  method IndexOfLeast<T>(s: seq<T>, key: T -> real, from: nat) returns (m: nat)
    requires from < |s|
    ensures from <= m < |s| && forall j :: from <= j < |s| ==> key(s[m]) <= key(s[j])
  {
    m := from;
    for j := from to |s|
      invariant from <= m < |s|
      invariant forall k :: from <= k < j ==> key(s[m]) <= key(s[k])
    {
      if key(s[j]) < key(s[m]) {
        m := j;
      }
    }
  }

  // ---- Insert and evict ----

  function Young(now: real, ttl: real): Record -> bool {
    (r: Record) => !(now - r.insertedAt > ttl)
  }

  function Score(): Record -> real {
    (r: Record) => r.score
  }

  /** kept is what remains of all after the quarter with the lowest scores is gone. */
  ghost predicate QuarterDropped(all: seq<Record>, kept: seq<Record>) {
    && |kept| == |all| - |all| / 4
    && multiset(kept) <= multiset(all)
    && forall a, b :: a in multiset(all) - multiset(kept) && b in multiset(kept) ==> a.score <= b.score
  }

  ghost predicate InsertStep(s: Store, s': Store, r: Record, now: real) {
    var all := s.records + [r.(id := s.nextId)];
    var young := Filter(Young(now, s.ttl), all);
    && s'.nextId == s.nextId + 1 && s'.maxSize == s.maxSize && s'.ttl == s.ttl
    && (if |all| <= s.maxSize then s'.records == all
        else if |young| <= s.maxSize then s'.records == young
        else QuarterDropped(young, s'.records))
  }

  method Insert(s: Store, r: Record, now: real) returns (s': Store)
    ensures InsertStep(s, s', r, now)
  {
    hide Filter;
    var all := s.records + [r.(id := s.nextId)];
    s' := s.(records := all, nextId := s.nextId + 1);
    if |all| > s.maxSize {
      var young := RemoveExpired(all, now, s.ttl);
      s' := s'.(records := young);
      if |young| > s.maxSize {
        var drop := |young| / 4;
        var sorted := PartialSort(young, Score(), drop);
        DropIsQuarter(young, sorted, drop);
        s' := s'.(records := sorted[drop..]);
      }
    }
  }

  lemma DropIsQuarter(all: seq<Record>, sorted: seq<Record>, drop: nat)
    requires multiset(sorted) == multiset(all) && |sorted| == |all| && drop == |all| / 4
    requires forall i, j :: 0 <= i < drop && i < j < |sorted| ==> sorted[i].score <= sorted[j].score
    ensures QuarterDropped(all, sorted[drop..])
  {
    assert sorted == sorted[..drop] + sorted[drop..];
    assert multiset(all) - multiset(sorted[drop..]) == multiset(sorted[..drop]);
    forall a, b | a in multiset(sorted[..drop]) && b in multiset(sorted[drop..])
      ensures a.score <= b.score
    {
      FrontIsLeast(sorted, drop, a, b);
    }
  }

  lemma FrontIsLeast(sorted: seq<Record>, drop: nat, a: Record, b: Record)
    requires drop <= |sorted| && a in multiset(sorted[..drop]) && b in multiset(sorted[drop..])
    requires forall i, j :: 0 <= i < drop && i < j < |sorted| ==> sorted[i].score <= sorted[j].score
    ensures a.score <= b.score
  {
    var i :| 0 <= i < drop && sorted[..drop][i] == a;
    var j :| 0 <= j < |sorted| - drop && sorted[drop..][j] == b;
    assert sorted[i] == a && sorted[drop + j] == b;
  }

  method RemoveExpired(records: seq<Record>, now: real, ttl: real) returns (kept: seq<Record>)
    ensures kept == Filter(Young(now, ttl), records)
  {
    kept := [];
    for i := 0 to |records|
      invariant kept == Filter(Young(now, ttl), records[..i])
    {
      assert records[..i + 1][..i] == records[..i];
      if !(now - records[i].insertedAt > ttl) {
        kept := kept + [records[i]];
      }
    }
    assert records[..|records|] == records;
  }

  method Sweep(s: Store, now: real, maxAge: real) returns (s': Store)
    ensures s' == s.(records := Filter(Young(now, maxAge), s.records))
  {
    var kept := RemoveExpired(s.records, now, maxAge);
    s' := s.(records := kept);
  }

  // ---- What every operation keeps ----

  function Limit(maxSize: nat): nat {
    if maxSize < 3 then 3 else maxSize
  }

  ghost predicate UniqueIds(m: multiset<Record>) {
    (forall a :: a in m ==> m[a] == 1) && forall a, b :: a in m && b in m && a.id == b.id ==> a == b
  }

  ghost predicate StoreInv(s: Store) {
    && |s.records| <= Limit(s.maxSize)
    && UniqueIds(multiset(s.records))
    && forall r :: r in multiset(s.records) ==> r.id < s.nextId
  }

  /** All records come from what was there and the new one. */
  lemma InsertComesFrom(s: Store, s': Store, r: Record, now: real)
    requires InsertStep(s, s', r, now)
    ensures multiset(s'.records) <= multiset(s.records + [r.(id := s.nextId)])
  {
    hide Filter;
    FilterSubMultiset(Young(now, s.ttl), s.records + [r.(id := s.nextId)]);
  }

  lemma {:induction false} FilterSubMultiset(p: Record -> bool, s: seq<Record>)
    ensures multiset(Filter(p, s)) <= multiset(s) && |Filter(p, s)| <= |s|
    decreases |s|
  {
    if s != [] {
      hide Filter;
      var front, x := s[..|s| - 1], s[|s| - 1];
      FilterSubMultiset(p, front);
      assert s == front + [x];
      FilterSnoc(p, front, x);
      SnocSubMultiset(Filter(p, front), front, x);
    }
  }

  lemma SnocSubMultiset(a: seq<Record>, b: seq<Record>, x: Record)
    requires multiset(a) <= multiset(b)
    ensures multiset(a) <= multiset(b + [x]) && multiset(a + [x]) <= multiset(b + [x])
    ensures a + [] == a
  {
    assert multiset(b + [x]) == multiset(b) + multiset{x};
    assert multiset(a + [x]) == multiset(a) + multiset{x};
  }

  lemma SubMultisetUnique(m: multiset<Record>, m': multiset<Record>)
    requires UniqueIds(m) && m' <= m
    ensures UniqueIds(m')
  {}

  lemma InsertKeeps(s: Store, s': Store, r: Record, now: real)
    requires StoreInv(s) && InsertStep(s, s', r, now)
    ensures StoreInv(s')
  {
    hide Filter;
    var x := r.(id := s.nextId);
    InsertComesFrom(s, s', r, now);
    FilterSubMultiset(Young(now, s.ttl), s.records + [x]);
    NewIdIsUnique(s, x);
    SubMultisetUnique(multiset(s.records + [x]), multiset(s'.records));
  }

  lemma NewIdIsUnique(s: Store, x: Record)
    requires StoreInv(s) && x.id == s.nextId
    ensures UniqueIds(multiset(s.records + [x]))
    ensures forall r :: r in multiset(s.records + [x]) ==> r.id < s.nextId + 1
  {
    assert multiset(s.records + [x]) == multiset(s.records) + multiset{x};
    assert x !in multiset(s.records);
  }

  /** After an insert a store with max_size >= 3 never exceeds it, and ids are pairwise
      different. */
  lemma InsertIsBounded(s: Store, s': Store, r: Record, now: real)
    requires StoreInv(s) && s.maxSize >= 3 && InsertStep(s, s', r, now)
    ensures |s'.records| <= s'.maxSize
    ensures forall i, j :: 0 <= i < j < |s'.records| ==> s'.records[i].id != s'.records[j].id
  {
    hide Filter;
    InsertKeeps(s, s', r, now);
    FilterSubMultiset(Young(now, s.ttl), s.records + [r.(id := s.nextId)]);
    DistinctFromUnique(s'.records);
  }

  /** A record evicted for its score, not its age, scores no more than any survivor. */
  lemma EvictedScoreLeast(s: Store, s': Store, r: Record, now: real, a: Record, b: Record)
    requires InsertStep(s, s', r, now)
    requires a in multiset(Filter(Young(now, s.ttl), s.records + [r.(id := s.nextId)])) - multiset(s'.records)
    requires b in s'.records
    ensures a.score <= b.score
  {
    hide Filter;
    FilterSubMultiset(Young(now, s.ttl), s.records + [r.(id := s.nextId)]);
    assert b in multiset(s'.records);
  }

  /** Equal elements at two positions count twice. */
  lemma CountTwice<T>(s: seq<T>, i: nat, j: nat)
    requires i < j < |s|
    ensures s[i] == s[j] ==> multiset(s)[s[i]] >= 2
  {
    assert s == s[..j] + [s[j]] + s[j + 1..];
    assert s[..j][i] == s[i];
  }

  lemma DistinctFromUnique(records: seq<Record>)
    requires UniqueIds(multiset(records))
    ensures forall i, j :: 0 <= i < j < |records| ==> records[i].id != records[j].id
  {
    forall i, j | 0 <= i < j < |records| ensures records[i].id != records[j].id {
      assert records[i] in multiset(records) && records[j] in multiset(records);
      CountTwice(records, i, j);
    }
  }

  /** A quarter of fewer than four records is none. So an insert leaves a store above its limit
      exactly if that limit is below three and more unexpired records than it allows, the new one
      included, are at hand. */
  lemma OverflowsExactlyBelowThree(s: Store, s': Store, r: Record, now: real)
    requires StoreInv(s) && InsertStep(s, s', r, now)
    ensures |s'.records| > s'.maxSize <==>
            s.maxSize < 3 && |Filter(Young(now, s.ttl), s.records + [r.(id := s.nextId)])| > s.maxSize
  {
    hide Filter;
    FilterSubMultiset(Young(now, s.ttl), s.records + [r.(id := s.nextId)]);
  }

  // ---- Search ----

  /** A query with its weights; the cosine of two embeddings and exp are parameters. */
  datatype Query = Query(
    embedding: seq<real>, maxAge: real, recencyTau: real, wSim: real, wAnomaly: real, wTime: real, scopeWeight: real,
    cosine: (seq<real>, seq<real>) -> real, exp: real -> real)

  /** Similarity, anomaly and recency of a record, weighted. */
  function Rank(q: Query, now: real): Record -> real {
    (r: Record) =>
      q.cosine(q.embedding, r.embedding) * q.wSim + r.score * q.wAnomaly
      + q.exp(-(now - r.insertedAt) / (if q.recencyTau < 1.0 then 1.0 else q.recencyTau)) * q.wTime + q.scopeWeight
  }

  /** Positions of records young enough to be considered. */
  predicate Eligible(s: Store, now: real, maxAge: real, i: nat)
    requires i < |s.records|
  {
    !(now - s.records[i].insertedAt > maxAge)
  }

  /** The positions picked: different, eligible, best first, and no better one left out. */
  ghost predicate Best(s: Store, now: real, maxAge: real, rank: Record -> real, k: nat, picked: seq<nat>) {
    && (forall a :: 0 <= a < |picked| ==> picked[a] < |s.records| && Eligible(s, now, maxAge, picked[a]))
    && (forall a, b :: 0 <= a < b < |picked| ==> picked[a] != picked[b])
    && (forall a, b :: 0 <= a < b < |picked| ==> rank(s.records[picked[a]]) >= rank(s.records[picked[b]]))
    && |picked| <= k
    && (forall i, a :: 0 <= i < |s.records| && Eligible(s, now, maxAge, i) && i !in picked && 0 <= a < |picked| ==>
          rank(s.records[i]) <= rank(s.records[picked[a]]))
    && (|picked| < k ==> forall i :: 0 <= i < |s.records| && Eligible(s, now, maxAge, i) ==> i in picked)
  }

  /** The records at these positions, each with its rank in place of its score. */
  ghost predicate Shows(s: Store, rank: Record -> real, picked: seq<nat>, out: seq<Record>) {
    && |out| == |picked|
    && forall a :: 0 <= a < |out| ==>
         picked[a] < |s.records| && out[a] == s.records[picked[a]].(score := rank(s.records[picked[a]]))
  }

  datatype Scored = Scored(score: real, at: nat)

  /** Every eligible record with its rank, in order of position. */
  method Rate(s: Store, now: real, maxAge: real, rank: Record -> real) returns (scores: seq<Scored>)
    ensures forall a :: 0 <= a < |scores| ==> scores[a].at < |s.records| && Eligible(s, now, maxAge, scores[a].at)
    ensures forall a :: 0 <= a < |scores| ==> scores[a].score == rank(s.records[scores[a].at])
    ensures DistinctPlaces(scores)
    ensures forall j :: 0 <= j < |s.records| && Eligible(s, now, maxAge, j) ==> Scored(rank(s.records[j]), j) in scores
  {
    scores := [];
    for i := 0 to |s.records|
      invariant forall a :: 0 <= a < |scores| ==> scores[a].at < i && Eligible(s, now, maxAge, scores[a].at)
      invariant forall a :: 0 <= a < |scores| ==> scores[a].score == rank(s.records[scores[a].at])
      invariant forall a, b :: 0 <= a < b < |scores| ==> scores[a].at < scores[b].at
      invariant forall j :: 0 <= j < i && Eligible(s, now, maxAge, j) ==> Scored(rank(s.records[j]), j) in scores
    {
      if !(now - s.records[i].insertedAt > maxAge) {
        scores := scores + [Scored(rank(s.records[i]), i)];
      }
    }
  }

  method Search(s: Store, q: Query, now: real, k: nat) returns (out: seq<Record>)
    ensures exists picked :: Best(s, now, q.maxAge, Rank(q, now), k, picked) && Shows(s, Rank(q, now), picked, out)
  {
    hide Rank;
    out := SearchBy(s, now, q.maxAge, Rank(q, now), k);
  }

  /** The search for any ranking. */
  method SearchBy(s: Store, now: real, maxAge: real, rank: Record -> real, k: nat) returns (out: seq<Record>)
    ensures exists picked :: Best(s, now, maxAge, rank, k, picked) && Shows(s, rank, picked, out)
  {
    var scores := Rate(s, now, maxAge, rank);
    var take := if k < |scores| then k else |scores|;
    var sorted := PartialSort(scores, (x: Scored) => -x.score, take);
    ghost var picked := seq(take, a requires 0 <= a < take => sorted[a].at);
    PickedIsBest(s, now, maxAge, rank, k, scores, sorted, take, picked);
    out := [];
    for a := 0 to take
      invariant |out| == a
      invariant forall b :: 0 <= b < a ==>
        picked[b] < |s.records| && out[b] == s.records[picked[b]].(score := rank(s.records[picked[b]]))
    {
      SortedMember(scores, sorted, a);
      out := out + [s.records[sorted[a].at].(score := sorted[a].score)];
    }
    assert Shows(s, rank, picked, out);
  }

  lemma SortedMember(scores: seq<Scored>, sorted: seq<Scored>, a: nat)
    requires multiset(sorted) == multiset(scores) && a < |sorted|
    ensures exists b :: 0 <= b < |scores| && scores[b] == sorted[a]
  {
    assert sorted[a] in multiset(sorted);
  }

  ghost predicate DistinctPlaces(s: seq<Scored>) {
    forall a, b :: 0 <= a < b < |s| ==> s[a].at != s[b].at
  }

  lemma SortedDistinct(scores: seq<Scored>, sorted: seq<Scored>)
    requires multiset(sorted) == multiset(scores) && |sorted| == |scores| && DistinctPlaces(scores)
    ensures DistinctPlaces(sorted)
  {
    forall a, b | 0 <= a < b < |sorted| ensures sorted[a].at != sorted[b].at {
      SortedMember(scores, sorted, a);
      SortedMember(scores, sorted, b);
      OnceOnly(scores, sorted[a]);
      CountTwice(sorted, a, b);
    }
  }

  lemma {:induction false} OnceOnly(scores: seq<Scored>, x: Scored)
    requires DistinctPlaces(scores)
    ensures multiset(scores)[x] <= 1
    decreases |scores|
  {
    if scores != [] {
      var rest, last := scores[..|scores| - 1], scores[|scores| - 1];
      assert scores == rest + [last];
      OnceOnly(rest, x);
      assert x in multiset(rest) <==> x in rest;
    }
  }

  lemma PickedIsBest(s: Store, now: real, maxAge: real,
      rank: Record -> real, k: nat, scores: seq<Scored>, sorted: seq<Scored>, take: nat, picked: seq<nat>)
    requires forall a :: 0 <= a < |scores| ==>
               && scores[a].at < |s.records| && Eligible(s, now, maxAge, scores[a].at)
               && scores[a].score == rank(s.records[scores[a].at])
    requires DistinctPlaces(scores)
    requires forall j :: 0 <= j < |s.records| && Eligible(s, now, maxAge, j) ==> Scored(rank(s.records[j]), j) in scores
    requires multiset(sorted) == multiset(scores) && |sorted| == |scores| && take == (if k < |scores| then k else |scores|)
    requires forall i, j :: 0 <= i < take && i < j < |sorted| ==> -sorted[i].score <= -sorted[j].score
    requires |picked| == take && forall a :: 0 <= a < take ==> picked[a] == sorted[a].at
    ensures Best(s, now, maxAge, rank, k, picked)
  {
    SortedDistinct(scores, sorted);
    forall a | 0 <= a < |sorted|
      ensures sorted[a].at < |s.records| && Eligible(s, now, maxAge, sorted[a].at) && sorted[a].score == rank(s.records[sorted[a].at])
    {
      SortedMember(scores, sorted, a);
    }
    forall i | 0 <= i < |s.records| && Eligible(s, now, maxAge, i)
      ensures exists b :: 0 <= b < |sorted| && sorted[b] == Scored(rank(s.records[i]), i)
    {
      assert Scored(rank(s.records[i]), i) in multiset(scores);
      assert Scored(rank(s.records[i]), i) in multiset(sorted);
    }
  }
}
