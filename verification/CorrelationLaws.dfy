/** What the correlation engine's counts, score and campaigns mean. */
module CorrelationLaws {
  import opened Campaigns
  import opened SlidingWindow
  import opened Correlation

  // ---- Counts ----

  /** The places of the times no earlier than lo. */
  function Late(h: seq<real>, lo: real): set<nat> {
    set i: nat | i < |h| && h[i] >= lo
  }

  /** Counting since a time is counting the places from it on. */
  lemma {:induction false} CountsPlaces(h: seq<real>, lo: real)
    ensures CountSince(h, lo) == |Late(h, lo)|
    decreases |h|
  {
    if h != [] {
      var n := |h| - 1;
      CountsPlaces(h[..n], lo);
      assert Late(h, lo) == Late(h[..n], lo) + if h[n] >= lo then {n} else {};
    }
  }

  /** The places of the records that are recent and score high enough. */
  function Slow(records: seq<Record>, cutoff: real, score: real): set<nat> {
    set i: nat | i < |records| && records[i].time >= cutoff && records[i].score >= score
  }

  lemma {:induction false} SlowCountsPlaces(records: seq<Record>, cutoff: real, score: real)
    ensures CountSlow(records, cutoff, score) == |Slow(records, cutoff, score)|
    decreases |records|
  {
    if records != [] {
      var n := |records| - 1;
      SlowCountsPlaces(records[..n], cutoff, score);
      assert Slow(records, cutoff, score) == Slow(records[..n], cutoff, score)
          + if records[n].time >= cutoff && records[n].score >= score then {n} else {};
    }
  }

  /** A slow attack reported from the bounded queue is one of the whole history; and where the
      queue still holds everything that recent, every one of the history is reported. */
  lemma {:induction false} SlowSeesWhatIsKept(queue: seq<Record>, history: seq<Record>, max: nat, cutoff: real, score: real)
    requires IsTail(queue, history, max)
    ensures CountSlow(queue, cutoff, score) <= CountSlow(history, cutoff, score)
    ensures (forall i :: 0 <= i < |history| - |queue| ==> history[i].time < cutoff) ==>
              CountSlow(queue, cutoff, score) == CountSlow(history, cutoff, score)
  {
    SlowOfTail(history, |history| - |queue|, cutoff, score);
  }

  lemma {:induction false} SlowOfTail(history: seq<Record>, g: nat, cutoff: real, score: real)
    requires g <= |history|
    ensures CountSlow(history[g..], cutoff, score) <= CountSlow(history, cutoff, score)
    ensures (forall i :: 0 <= i < g ==> history[i].time < cutoff) ==>
              CountSlow(history[g..], cutoff, score) == CountSlow(history, cutoff, score)
    decreases |history|
  {
    if g < |history| {
      var n := |history| - 1;
      SlowOfTail(history[..n], g, cutoff, score);
      assert history[g..][..n - g] == history[..n][g..];
    } else {
      NoneRecent(history, cutoff, score);
    }
  }

  lemma {:induction false} NoneRecent(history: seq<Record>, cutoff: real, score: real)
    ensures (forall i :: 0 <= i < |history| ==> history[i].time < cutoff) ==> CountSlow(history, cutoff, score) == 0
    decreases |history|
  {
    if history != [] {
      NoneRecent(history[..|history| - 1], cutoff, score);
    }
  }

  /** The sources that count for a distributed attack are those of the records from the cutoff on. */
  lemma RecentSourcesAre(records: seq<Record>, cutoff: real, source: string)
    ensures source in RecentSources(records, cutoff)
       <==> exists k :: 0 <= k < |records| && records[k].time >= cutoff && records[k].source == source
  {}

  // ---- Score ----

  /** Each detection adds its own weight to the score, whatever the others say, and none alone
      scores nothing. */
  lemma ScoreAddsUp(c: Config, repeated: bool, staged: bool, distributed: bool, slow: bool)
    ensures Weighted(c, false, false, false, false) == 0.0
    ensures Weighted(c, true, staged, distributed, slow) == Weighted(c, false, staged, distributed, slow) + c.repeatWeight
    ensures Weighted(c, repeated, true, distributed, slow) == Weighted(c, repeated, false, distributed, slow) + c.stageWeight
    ensures Weighted(c, repeated, staged, true, slow) == Weighted(c, repeated, staged, false, slow) + c.distWeight
    ensures Weighted(c, repeated, staged, distributed, true) == Weighted(c, repeated, staged, distributed, false) + c.slowWeight
  {}

  /** The reported score is the nearest one in [0,1]. */
  lemma ScoreIsInRange(x: real)
    ensures 0.0 <= Correlation.Clamp(x) <= 1.0
    ensures 0.0 <= x <= 1.0 ==> Correlation.Clamp(x) == x
    ensures x < 0.0 ==> Correlation.Clamp(x) == 0.0
    ensures x > 1.0 ==> Correlation.Clamp(x) == 1.0
  {}

  // ---- Campaigns ----

  /** A name list that takes in one more name: it ends with the name, it loses none unless there
      were 2048 already, and then it keeps the newest 1024. */
  lemma AppendedNames(names: seq<string>, name: string)
    requires |names| <= 2048
    ensures var r := Appended(names, name);
      && r != [] && r[|r| - 1] == name
      && (names != [] && names[|names| - 1] == name ==> r == names)
      && (|names| < 2048 && (names == [] || names[|names| - 1] != name) ==> r == names + [name])
      && (|names| == 2048 && names[2047] != name ==> r == names[1025..] + [name])
  {}

  /** What a campaign becomes with one more record: the class, the id and the beginning stay. */
  lemma AbsorbedRecord(c: Campaign, r: Record, now: real)
    requires |c.sources| <= 2048 && |c.hosts| <= 2048
    ensures var a := Absorbed(c, r, now);
      && a.id == c.id && a.attackClass == c.attackClass && a.firstSeen == c.firstSeen && a.lastSeen == now
      && (c.eventCount + 1 < 0x1_0000_0000 ==> a.eventCount == c.eventCount + 1)
      && a.maxScore >= c.maxScore && a.maxScore >= r.score && (a.maxScore == c.maxScore || a.maxScore == r.score)
      && r.source in a.sources && r.destination in a.hosts
  {
    AppendedNames(c.sources, r.source);
    AppendedNames(c.hosts, r.destination);
    var a := Absorbed(c, r, now);
    assert a.sources[|a.sources| - 1] == r.source && a.hosts[|a.hosts| - 1] == r.destination;
  }

  function DecimalValue(s: string): int
    decreases |s|
  {
    if s == [] then 0 else 10 * DecimalValue(s[..|s| - 1]) + (s[|s| - 1] as int - '0' as int)
  }

  /** The number in a campaign's id is its place in decimal. */
  lemma {:induction false} DecimalReads(n: nat)
    ensures DecimalValue(Decimal(n)) == n && forall i :: 0 <= i < |Decimal(n)| ==> '0' <= Decimal(n)[i] <= '9'
    decreases n
  {
    if n < 10 {
      assert DecimalValue([]) == 0;
      assert Decimal(n)[..0] == [];
    } else {
      DecimalReads(n / 10);
      assert Decimal(n)[..|Decimal(n)| - 1] == Decimal(n / 10);
    }
  }

  ghost predicate Related(c: Campaign, r: Record) {
    r.source in c.sources || c.attackClass == r.attackClass
  }

  /** A record is taken in exactly if a campaign of its source or class exists, or it scores at
      least 0.4 and there is room for a new one. Then some campaign was last seen now, counts it,
      and has its source and host; all other campaigns are as they were. */
  lemma RecordFindsCampaign(m: map<string, Campaign>, m': map<string, Campaign>, r: Record, now: real, max: nat,
      absorbed: bool, total: nat)
    requires CampaignInv(m, max, total) && CampaignStep(m, m', r, now, max, absorbed)
    ensures absorbed <==> (exists id :: id in m && Related(m[id], r)) || (r.score >= 0.4 && |m| < max)
    ensures absorbed ==> exists id :: id in m' && Home(m, m', id, r, now)
    ensures !absorbed ==> m' == m
  {
    hide CampaignInv, Absorbed, Opened, CampaignId, Home, Matches, Related;
    forall id | id in m ensures Matches(m[id], r) <==> Related(m[id], r) {
      MatchesIsRelated(m[id], r);
    }
    if id :| id in m && Matches(m[id], r) && m' == m[id := Absorbed(m[id], r, now)] && absorbed {
      AbsorbedHome(m, id, r, now, max, total);
    } else if absorbed {
      OpenedHome(m, r, now, max, total);
    }
  }

  lemma MatchesIsRelated(c: Campaign, r: Record)
    ensures Matches(c, r) <==> Related(c, r)
  {}

  lemma AbsorbedHome(m: map<string, Campaign>, id: string, r: Record, now: real, max: nat, total: nat)
    requires CampaignInv(m, max, total) && id in m && Related(m[id], r)
    ensures Home(m, m[id := Absorbed(m[id], r, now)], id, r, now)
  {
    hide SumCounts, Absorbed, IdsAreFresh, Related;
    AbsorbedRecord(m[id], r, now);
  }

  lemma OpenedHome(m: map<string, Campaign>, r: Record, now: real, max: nat, total: nat)
    requires CampaignInv(m, max, total)
    ensures Home(m, m[CampaignId(|m|) := Opened(|m|, r, now)], CampaignId(|m|), r, now)
  {
    hide SumCounts, Opened, IdsAreFresh, CampaignId;
    NextIdIsNew(m);
    OpenedRecord(|m|, r, now);
  }

  lemma OpenedRecord(n: nat, r: Record, now: real)
    ensures var c := Opened(n, r, now);
      && c.lastSeen == now && c.firstSeen == now && c.attackClass == r.attackClass && c.maxScore == r.score
      && r.source in c.sources && r.destination in c.hosts && c.eventCount == 1
  {}

  /** The campaign that took the record in. */
  ghost predicate Home(m: map<string, Campaign>, m': map<string, Campaign>, id: string, r: Record, now: real)
    requires id in m'
  {
    && m'.Keys == m.Keys + {id}
    && (forall k :: k in m && k != id ==> m'[k] == m[k])
    && m'[id].lastSeen == now && r.source in m'[id].sources && r.destination in m'[id].hosts
    && m'[id].maxScore >= r.score
    && (if id in m then Related(m[id], r) && m'[id].firstSeen == m[id].firstSeen && m'[id].attackClass == m[id].attackClass
        else m'[id].firstSeen == now && m'[id].attackClass == r.attackClass && m'[id].eventCount == 1)
  }
}
