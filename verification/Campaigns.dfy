/** The campaign table of include/ids_correlation.hpp:286-329, without sweep. */
module Campaigns {

  datatype Decision = Ignore | Log | Alert | Block | Escalate

  datatype Record = Record(
    attackClass: string, score: real, decision: Decision, source: string, destination: string, time: real)

  const MAX_SOURCES := 2048
  const NEW_CAMPAIGN_SCORE := 0.4
  const COUNTER_RANGE := 0x1_0000_0000

  datatype Campaign = Campaign(
    id: string, attackClass: string, sources: seq<string>, hosts: seq<string>,
    firstSeen: real, lastSeen: real, eventCount: nat, maxScore: real)

  function Decimal(n: nat): (s: string)
    ensures |s| > 0 && (|s| == 1 <==> n < 10)
  {
    if n < 10 then [Digit(n)] else Decimal(n / 10) + [Digit(n % 10)]
  }

  function Digit(d: nat): char
    requires d < 10
  {
    '0' + d as char
  }

  lemma {:induction false} DecimalInjective(a: nat, b: nat)
    requires Decimal(a) == Decimal(b)
    ensures a == b
    decreases a
  {
    var s, t := Decimal(a), Decimal(b);
    assert s[|s| - 1] == Digit(a % 10) && t[|t| - 1] == Digit(b % 10);
    assert a % 10 == b % 10;
    if a >= 10 && b >= 10 {
      assert s[..|s| - 1] == Decimal(a / 10) && t[..|t| - 1] == Decimal(b / 10);
      DecimalInjective(a / 10, b / 10);
    }
  }

  function CampaignId(n: nat): string {
    "camp_" + Decimal(n)
  }

  lemma IdInjective(a: nat, b: nat)
    requires CampaignId(a) == CampaignId(b)
    ensures a == b
  {
    hide Decimal;
    assert CampaignId(a)[5..] == Decimal(a) && CampaignId(b)[5..] == Decimal(b);
    DecimalInjective(a, b);
  }

  predicate Matches(c: Campaign, r: Record) {
    r.source in c.sources || c.attackClass == r.attackClass
  }

  function Appended(names: seq<string>, name: string): seq<string> {
    var all := if names == [] || names[|names| - 1] != name then names + [name] else names;
    if |all| > MAX_SOURCES then all[|all| - MAX_SOURCES / 2..] else all
  }

  function Absorbed(c: Campaign, r: Record, now: real): Campaign {
    c.(lastSeen := now, eventCount := (c.eventCount + 1) % COUNTER_RANGE,
       maxScore := if r.score > c.maxScore then r.score else c.maxScore,
       sources := Appended(c.sources, r.source), hosts := Appended(c.hosts, r.destination))
  }

  function Opened(n: nat, r: Record, now: real): Campaign {
    Campaign(CampaignId(n), r.attackClass, [r.source], [r.destination], now, now, 1, r.score)
  }

  /** What update_campaign may do: absorb the record into one matching campaign, whichever the
      iteration meets first; or open a new one; or nothing. */
  ghost predicate CampaignStep(m: map<string, Campaign>, m': map<string, Campaign>, r: Record, now: real,
      max: nat, absorbed: bool) {
    if exists id :: id in m && Matches(m[id], r) then
      absorbed && exists id :: id in m && Matches(m[id], r) && m' == m[id := Absorbed(m[id], r, now)]
    else if r.score < NEW_CAMPAIGN_SCORE || |m| >= max then !absorbed && m' == m
    else absorbed && m' == m[CampaignId(|m|) := Opened(|m|, r, now)]
  }

  method UpdateCampaign(m: map<string, Campaign>, r: Record, now: real,
      max: nat) returns (m': map<string, Campaign>, absorbed: bool)
    ensures CampaignStep(m, m', r, now, max, absorbed)
  {
    hide Absorbed, Matches;
    var todo := m.Keys;
    while todo != {}
      invariant todo <= m.Keys
      invariant forall id :: id in m && id !in todo ==> !Matches(m[id], r)
      decreases |todo|
    {
      var id :| id in todo;
      var c := m[id];
      if Matches(c, r) {
        return m[id := Absorbed(c, r, now)], true;
      }
      todo := todo - {id};
    }
    if r.score < NEW_CAMPAIGN_SCORE || |m| >= max {
      return m, false;
    }
    return m[CampaignId(|m|) := Opened(|m|, r, now)], true;
  }

  /** The ids are exactly camp_0 .. camp_(n-1). */
  ghost predicate IdsAreFresh(m: map<string, Campaign>) {
    && (forall n: nat :: n < |m| ==> CampaignId(n) in m)
    && (forall id :: id in m ==> m[id].id == id && exists n: nat :: n < |m| && id == CampaignId(n))
  }

  /** The event counts of the first n campaigns. */
  ghost function SumCounts(m: map<string, Campaign>, n: nat): nat
    requires forall k: nat :: k < n ==> CampaignId(k) in m
  {
    if n == 0 then 0 else SumCounts(m, n - 1) + m[CampaignId(n - 1)].eventCount
  }

  ghost predicate CampaignInv(m: map<string, Campaign>, max: nat, total: nat) {
    && |m| <= max
    && IdsAreFresh(m)
    && (forall id :: id in m ==> |m[id].sources| <= MAX_SOURCES && |m[id].hosts| <= MAX_SOURCES)
    && SumCounts(m, |m|) <= total
    && (total < COUNTER_RANGE ==> SumCounts(m, |m|) == total)
  }

  lemma {:induction false} SumUpdate(m: map<string, Campaign>, n: nat, k: nat, c: Campaign)
    requires k < n && forall j: nat :: j < n ==> CampaignId(j) in m
    ensures SumCounts(m[CampaignId(k) := c], n) == SumCounts(m, n) - m[CampaignId(k)].eventCount + c.eventCount
    ensures m[CampaignId(k)].eventCount <= SumCounts(m, n)
    decreases n
  {
    hide CampaignId;
    if k == n - 1 {
      SumSame(m, n - 1, k, c);
    } else {
      SumUpdate(m, n - 1, k, c);
      if CampaignId(n - 1) == CampaignId(k) {
        IdInjective(n - 1, k);
      }
    }
  }

  lemma {:induction false} SumSame(m: map<string, Campaign>, n: nat, k: nat, c: Campaign)
    requires k >= n && forall j: nat :: j < n ==> CampaignId(j) in m
    ensures SumCounts(m[CampaignId(k) := c], n) == SumCounts(m, n)
    decreases n
  {
    hide CampaignId;
    if n > 0 {
      SumSame(m, n - 1, k, c);
      if CampaignId(n - 1) == CampaignId(k) {
        IdInjective(n - 1, k);
      }
    }
  }

  /** Every record keeps the table within its limit and its ids fresh, and the event counts add
      up to the records absorbed. */
  lemma CampaignsAreConserved(m: map<string, Campaign>, m': map<string, Campaign>, r: Record, now: real,
      max: nat, absorbed: bool, total: nat)
    requires CampaignInv(m, max, total) && CampaignStep(m, m', r, now, max, absorbed)
    ensures CampaignInv(m', max, if absorbed then total + 1 else total)
  {
    hide CampaignId, Matches, SumCounts, Absorbed, Opened;
    if id :| id in m && Matches(m[id], r) && m' == m[id := Absorbed(m[id], r, now)] && absorbed {
      var k: nat :| k < |m| && id == CampaignId(k);
      AbsorbShape(m[id], r, now);
      SumUpdate(m, |m|, k, Absorbed(m[id], r, now));
      assert m'.Keys == m.Keys;
    } else if absorbed {
      OpenKeeps(m, r, now, max, total);
    }
  }

  lemma AbsorbShape(c: Campaign, r: Record, now: real)
    ensures var a := Absorbed(c, r, now);
      && a.id == c.id && a.eventCount == (c.eventCount + 1) % COUNTER_RANGE
      && (|c.sources| <= MAX_SOURCES ==> |a.sources| <= MAX_SOURCES) && (|c.hosts| <= MAX_SOURCES ==> |a.hosts| <= MAX_SOURCES)
  {}

  lemma NextIdIsNew(m: map<string, Campaign>)
    requires IdsAreFresh(m)
    ensures CampaignId(|m|) !in m
  {
    hide CampaignId;
    if CampaignId(|m|) in m {
      var k: nat :| k < |m| && CampaignId(|m|) == CampaignId(k);
      IdInjective(k, |m|);
    }
  }

  lemma OpenKeepsIds(m: map<string, Campaign>, c: Campaign)
    requires IdsAreFresh(m) && c.id == CampaignId(|m|)
    ensures var m' := m[CampaignId(|m|) := c]; IdsAreFresh(m') && |m'| == |m| + 1
  {
    hide CampaignId;
    NextIdIsNew(m);
    var m' := m[c.id := c];
    assert m'.Keys == m.Keys + {c.id};
    assert |m'.Keys| == |m'|;
    forall id | id in m' ensures exists n: nat :: n < |m'| && id == CampaignId(n) {
      if id in m {
        var k: nat :| k < |m| && id == CampaignId(k);
        assert k < |m'|;
      } else {
        assert id == CampaignId(|m|);
      }
    }
  }

  lemma OpenKeeps(m: map<string, Campaign>, r: Record, now: real, max: nat, total: nat)
    requires CampaignInv(m, max, total) && |m| < max
    ensures CampaignInv(m[CampaignId(|m|) := Opened(|m|, r, now)], max, total + 1)
  {
    hide CampaignId, SumCounts, IdsAreFresh;
    var n := |m|;
    var c := Opened(n, r, now);
    var m' := m[CampaignId(n) := c];
    IdsPresent(m);
    OpenKeepsIds(m, c);
    IdsPresent(m');
    SumSame(m, n, n, c);
    SumLast(m', n);
  }

  lemma IdsPresent(m: map<string, Campaign>)
    requires IdsAreFresh(m)
    ensures forall n: nat :: n < |m| ==> CampaignId(n) in m
  {}

  lemma SumLast(m: map<string, Campaign>, n: nat)
    requires forall k: nat :: k < n + 1 ==> CampaignId(k) in m
    ensures SumCounts(m, n + 1) == SumCounts(m, n) + m[CampaignId(n)].eventCount
  {
    hide CampaignId;
  }

  /** id names a campaign of this address, or is empty when there is none. */
  ghost predicate Covers(m: map<string, Campaign>, ip: string, id: string) {
    if exists k :: k in m && ip in m[k].sources then id in m && ip in m[id].sources else id == ""
  }

  method CampaignFor(m: map<string, Campaign>, ip: string) returns (id: string)
    ensures Covers(m, ip, id)
  {
    var todo := m.Keys;
    while todo != {}
      invariant todo <= m.Keys
      invariant forall k :: k in m && k !in todo ==> ip !in m[k].sources
      decreases |todo|
    {
      id :| id in todo;
      if ip in m[id].sources {
        return;
      }
      todo := todo - {id};
    }
    id := "";
  }
}
