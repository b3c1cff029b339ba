/** NearMissDetector of include/ids_types.hpp:692-721: a ring of at most 50 recent borderline
    scores per address decides as the full history would. */
module NearMiss {
  import opened SlidingWindow

  const RING := 50
  const ALERT_SCORE := 0.6

  function Get(m: map<string, seq<real>>, key: string): seq<real> {
    if key in m then m[key] else []
  }

  /** The ring is the end of the history; unless it is full, all that is missing from it had
      left the window. */
  ghost predicate RingInv(ring: seq<real>, history: seq<real>, last: real, window: real) {
    && Sorted(history) && (forall i :: 0 <= i < |history| ==> history[i] <= last)
    && |ring| <= RING && |ring| <= |history|
    && ring == history[|history| - |ring|..]
    && (|ring| == RING || forall i :: 0 <= i < |history| - |ring| ==> last - history[i] > window)
  }

  /** Dropping `dropped` outdated entries from the front, with the new time appended. */
  lemma ExpireKeepsRing(ring: seq<real>, history: seq<real>, last: real, now: real, window: real, dropped: nat)
    requires RingInv(ring, history, last, window) && now >= last && dropped <= |ring| + 1
    requires forall i :: 0 <= i < dropped ==> now - (ring + [now])[i] > window
    ensures var (h, r) := (history + [now], (ring + [now])[dropped..]);
      && Sorted(h) && (forall i :: 0 <= i < |h| ==> h[i] <= now) && |r| <= |h| && r == h[|h| - |r|..]
      && (|r| <= RING ==> RingInv(r, h, now, window))
      && (|r| > RING ==> |r| == RING + 1 && RingInv(r[1..], h, now, window))
  {
    var h, all := history + [now], ring + [now];
    var g := |history| - |ring|;
    assert all == h[g..];
    assert all[dropped..] == h[g + dropped..];
    if dropped > 0 {
      assert all[dropped - 1] == h[g + dropped - 1];
      forall i | 0 <= i < g + dropped ensures now - h[i] > window {
        assert h[i] <= h[g + dropped - 1];
      }
    }
    if |all[dropped..]| > RING {
      assert all[dropped..][1..] == h[|h| - RING..];
    }
  }

  lemma RingIsSorted(ring: seq<real>, history: seq<real>, last: real, window: real)
    requires RingInv(ring, history, last, window)
    ensures Sorted(ring + [last])
  {}

  /** The ring is as long as the recent history, up to its capacity. */
  lemma RingCounts(ring: seq<real>, history: seq<real>, last: real, window: real, threshold: nat)
    requires RingInv(ring, history, last, window)
    requires forall i :: 0 <= i < |ring| ==> last - ring[i] <= window
    ensures threshold <= RING ==> (|ring| >= threshold <==> CountSince(history, last - window) >= threshold)
    ensures threshold > RING ==> |ring| < threshold
  {
    var g := |history| - |ring|;
    forall i | g <= i < |history| ensures history[i] >= last - window {
      assert history[i] == ring[i - g];
    }
    if |ring| == RING {
      SuffixAtLeast(history, last - window, g);
    } else {
      SuffixCount(history, last - window, g);
    }
  }

  /** The ring after a near miss: the outdated entries gone from the front, at most 50 kept. */
  function NextRing(ring: seq<real>, now: real, dropped: nat): seq<real>
    requires dropped <= |ring| + 1
  {
    var r := (ring + [now])[dropped..];
    if |r| > RING then r[1..] else r
  }

  lemma NextRingCounts(ring: seq<real>, history: seq<real>, now: real, window: real, dropped: nat, threshold: nat)
    requires RingInv(ring, history, now, window) && dropped <= |ring| + 1
    requires forall i :: 0 <= i < dropped ==> now - (ring + [now])[i] > window
    requires forall i :: dropped <= i < |ring + [now]| ==> now - (ring + [now])[i] <= window
    ensures RingInv(NextRing(ring, now, dropped), history + [now], now, window)
    ensures threshold <= 50 ==>
              (|NextRing(ring, now, dropped)| >= threshold <==> CountSince(history + [now], now - window) >= threshold)
    ensures threshold > 50 ==> |NextRing(ring, now, dropped)| < threshold
  {
    hide CountSince, RingInv;
    ExpireKeepsRing(ring, history, now, now, window, dropped);
    var r := NextRing(ring, now, dropped);
    forall i | 0 <= i < |r| ensures now - r[i] <= window {
      var skipped := |ring| + 1 - |r|;
      assert r[i] == (ring + [now])[skipped + i];
    }
    RingCounts(r, history + [now], now, window, threshold);
  }

  ghost predicate AllRings(rings: map<string, seq<real>>, histories: map<string, seq<real>>, last: real, window: real) {
    forall ip :: RingInv(Get(rings, ip), Get(histories, ip), last, window)
  }

  lemma OneRing(rings: map<string, seq<real>>, histories: map<string, seq<real>>, last: real, window: real, ip: string)
    requires AllRings(rings, histories, last, window)
    ensures RingInv(Get(rings, ip), Get(histories, ip), last, window)
  {}

  lemma LaterRings(rings: map<string, seq<real>>, histories: map<string, seq<real>>, last: real, now: real, window: real)
    requires AllRings(rings, histories, last, window) && now >= last
    ensures AllRings(rings, histories, now, window)
  {
    forall ip ensures RingInv(Get(rings, ip), Get(histories, ip), now, window) {
      OneRing(rings, histories, last, window, ip);
    }
  }

  lemma PutGets(m: map<string, seq<real>>, ip: string, h: seq<real>)
    ensures Get(m[ip := h], ip) == h
  {}

  /** A new ring and history for one address. */
  lemma PutRing(rings: map<string, seq<real>>, histories: map<string, seq<real>>, ip: string, ring: seq<real>,
      history: seq<real>, last: real, window: real)
    requires RingInv(ring, history, last, window) && AllRings(rings, histories, last, window)
    ensures AllRings(rings[ip := ring], histories[ip := history], last, window)
  {
    hide RingInv;
    var rings', histories' := rings[ip := ring], histories[ip := history];
    forall k ensures RingInv(Get(rings', k), Get(histories', k), last, window) {
      OneRing(rings, histories, last, window, k);
    }
  }

  class NearMissDetector {
    const window: real
    const threshold: nat
    const minScore: real
    var nearMisses: map<string, seq<real>>
    /** The times of all near misses since the last reset, and the last clock reading. */
    ghost var history: map<string, seq<real>>
    ghost var last: real

    ghost predicate Valid()
      reads this
    {
      AllRings(nearMisses, history, last, window)
    }

    constructor (window: real, threshold: nat, minScore: real)
      ensures Valid() && this.window == window && this.threshold == threshold && this.minScore == minScore && history == map[]
    {
      this.window, this.threshold, this.minScore := window, threshold, minScore;
      nearMisses, history, last := map[], map[], 0.0;
    }

    /** Up to a threshold of 50 the answer is that of the full history; above, it is never yes. */
    method Check(ip: string, score: real, now: real) returns (hit: bool)
      requires Valid() && now >= last
      modifies this
      ensures Valid() && last == now
      ensures history == if minScore <= score < 0.6 then old(history)[ip := Get(old(history), ip) + [now]] else old(history)
      ensures threshold <= 50 ==>
                (hit <==> minScore <= score < 0.6 && CountSince(Get(history, ip), now - window) >= threshold)
      ensures threshold > 50 ==> !hit
    {
      hide CountSince, RingInv, AllRings, Sorted, Get;
      LaterRings(nearMisses, history, last, now, window);
      last := now;
      if score >= ALERT_SCORE || score < minScore {
        return false;
      }
      var ring := Get(nearMisses, ip);
      ghost var before, times := ring, Get(history, ip);
      OneRing(nearMisses, history, now, window, ip);
      RingIsSorted(before, times, now, window);
      var dropped := Outdated(ring + [now], now, window);
      NextRingCounts(before, times, now, window, dropped, threshold);
      ring := (ring + [now])[dropped..];
      if |ring| > RING {
        ring := ring[1..];
      }
      assert ring == NextRing(before, now, dropped);
      PutRing(nearMisses, history, ip, ring, times + [now], now, window);
      nearMisses := nearMisses[ip := ring];
      history := history[ip := times + [now]];
      PutGets(old(history), ip, times + [now]);
      return |ring| >= threshold;
    }

    method Reset()
      modifies this
      ensures Valid() && history == map[] && last == old(last)
    {
      nearMisses, history := map[], map[];
    }
  }

  /** How many entries the loop pops from the front. */
  method Outdated(ring: seq<real>, now: real, window: real) returns (n: nat)
    requires Sorted(ring)
    ensures n <= |ring|
    ensures forall i :: 0 <= i < n ==> now - ring[i] > window
    ensures forall i :: n <= i < |ring| ==> now - ring[i] <= window
  {
    n := 0;
    while n < |ring| && now - ring[n] > window
      invariant n <= |ring|
      invariant forall i :: 0 <= i < n ==> now - ring[i] > window
    {
      n := n + 1;
    }
  }
}
