/** The correlation engine of include/ids_correlation.hpp, without sweep: bounded record
    queues, the detectors that read them, and the campaign table. */
module Correlation {
  import opened Campaigns
  import opened SlidingWindow

  datatype Pattern = Pattern(name: string, sequence: seq<string>, maxGap: real)

  datatype Config = Config(
    maxPerIp: nat, maxPerHost: nat, maxGlobal: nat, maxCampaigns: nat,
    repeatThreshold: nat, repeatWindow: real,
    patterns: seq<Pattern>, multiStage: bool,
    sourceThreshold: nat, distWindow: real,
    slowThreshold: nat, slowWindow: real, slowScore: real,
    repeatWeight: real, stageWeight: real, distWeight: real, slowWeight: real)

  // ---- Bounded queues ----

  /** The queue holds the last `max` records of the history. */
  ghost predicate IsTail(queue: seq<Record>, history: seq<Record>, max: nat) {
    |queue| == (if |history| < max then |history| else max) && queue == history[|history| - |queue|..]
  }

  function Pushed(queue: seq<Record>, r: Record, max: nat): seq<Record> {
    if |queue| + 1 > max then (queue + [r])[1..] else queue + [r]
  }

  lemma PushKeepsTail(queue: seq<Record>, history: seq<Record>, r: Record, max: nat)
    requires IsTail(queue, history, max)
    ensures IsTail(Pushed(queue, r, max), history + [r], max)
  {
    var q, h := queue + [r], history + [r];
    assert q == h[|h| - |q|..];
    if |q| > max {
      assert q[1..] == h[|h| - |q| + 1..];
    }
  }

  function Get(m: map<string, seq<Record>>, key: string): seq<Record> {
    if key in m then m[key] else []
  }

  // ---- Repeat detection ----

  function Times(records: seq<Record>): (r: seq<real>)
    ensures |r| == |records|
  {
    seq(|records|, k requires 0 <= k < |records| => records[k].time)
  }

  ghost predicate InOrder(history: seq<Record>, last: real) {
    Sorted(Times(history)) && forall k :: 0 <= k < |history| ==> history[k].time <= last
  }

  /** With a threshold the queue can hold, it decides as the whole history would. */
  lemma RepeatSeesAll(queue: seq<Record>, history: seq<Record>, max: nat, cutoff: real, threshold: nat)
    requires IsTail(queue, history, max) && Sorted(Times(history)) && threshold <= max
    ensures CountSince(Times(queue), cutoff) >= threshold <==> CountSince(Times(history), cutoff) >= threshold
  {
    var t := Times(history);
    var g := |history| - |queue|;
    assert Times(queue) == t[g..];
    DropFront(t, cutoff, g);
    if g > 0 && t[g - 1] >= cutoff {
      SuffixAtLeast(t, cutoff, g);
      SuffixAtLeast(t[g..], cutoff, 0);
    }
  }

  method DetectRepeat(records: seq<Record>, cutoff: real, threshold: nat) returns (hit: bool)
    ensures hit <==> CountSince(Times(records), cutoff) >= threshold
  {
    var count := 0;
    for i := 0 to |records|
      invariant count == CountSince(Times(records[..i]), cutoff)
    {
      assert Times(records[..i + 1])[..i] == Times(records[..i]);
      if records[i].time >= cutoff {
        count := count + 1;
      }
    }
    assert records[..|records|] == records;
    return count >= threshold;
  }

  // ---- Multi-stage detection ----

  /** The greedy scan: how many stages are matched, and when the last one was. */
  function Scan(p: Pattern, records: seq<Record>): (nat, real)
    decreases |records|
  {
    if records == [] then (0, 0.0)
    else
      var (m, t) := Scan(p, records[..|records| - 1]);
      var r := records[|records| - 1];
      if m < |p.sequence| && r.attackClass == p.sequence[m] && (m == 0 || r.time - t <= p.maxGap) then (m + 1, r.time)
      else (m, t)
  }

  /** The records at these increasing positions spell the first stages of the pattern, each
      within the gap of the one before. */
  ghost predicate Spells(p: Pattern, records: seq<Record>, choice: seq<nat>) {
    && |choice| <= |p.sequence|
    && (forall i :: 0 <= i < |choice| ==> choice[i] < |records| && records[choice[i]].attackClass == p.sequence[i])
    && (forall i :: 0 < i < |choice| ==>
          choice[i - 1] < choice[i] && records[choice[i]].time - records[choice[i - 1]].time <= p.maxGap)
  }

  /** Where the search for stage i begins. */
  function After(choice: seq<nat>, i: nat): nat
    requires i <= |choice|
  {
    if i == 0 then 0 else choice[i - 1] + 1
  }

  lemma SpellsWiden(p: Pattern, records: seq<Record>, r: Record, choice: seq<nat>)
    requires Spells(p, records, choice)
    ensures Spells(p, records + [r], choice)
  {
    forall i | 0 <= i < |choice| ensures (records + [r])[choice[i]] == records[choice[i]] {}
  }

  lemma SpellsAppend(p: Pattern, records: seq<Record>, choice: seq<nat>, k: nat)
    requires Spells(p, records, choice) && |choice| < |p.sequence| && After(choice, |choice|) <= k < |records|
    requires records[k].attackClass == p.sequence[|choice|]
    requires choice != [] ==> records[k].time - records[choice[|choice| - 1]].time <= p.maxGap
    ensures Spells(p, records, choice + [k])
  {
    var more := choice + [k];
    forall i | 0 <= i < |more| ensures more[i] < |records| && records[more[i]].attackClass == p.sequence[i] {
      assert i < |choice| ==> more[i] == choice[i];
    }
    forall i | 0 < i < |more|
      ensures more[i - 1] < more[i] && records[more[i]].time - records[more[i - 1]].time <= p.maxGap
    {
      assert more[i - 1] == choice[i - 1];
      assert i < |choice| ==> more[i] == choice[i];
    }
  }

  lemma LastInRange(p: Pattern, records: seq<Record>, choice: seq<nat>)
    requires Spells(p, records, choice)
    ensures |choice| <= |p.sequence| && After(choice, |choice|) <= |records|
  {}

  lemma {:induction false} ScanSpells(p: Pattern, records: seq<Record>) returns (choice: seq<nat>)
    ensures |choice| == Scan(p, records).0 && Spells(p, records, choice)
    ensures choice != [] ==> choice[|choice| - 1] < |records| && records[choice[|choice| - 1]].time == Scan(p, records).1
    decreases |records|
  {
    choice := [];
    if records != [] {
      hide Spells;
      var n := |records| - 1;
      var before := ScanSpells(p, records[..n]);
      SpellsWiden(p, records[..n], records[n], before);
      assert records[..n] + [records[n]] == records;
      choice := before;
      if Scan(p, records).0 > |before| {
        LastInRange(p, records[..n], before);
        SpellsAppend(p, records, before, n);
        choice := before + [n];
      }
    }
  }

  ghost predicate StagesFound(patterns: seq<Pattern>, records: seq<Record>) {
    exists k :: 0 <= k < |patterns| && Scan(patterns[k], records).0 == |patterns[k].sequence|
  }

  /** Soundness: a detection means that some pattern is spelt out in full by records of the
      queue, in order and without an excessive gap. */
  lemma MultiStageIsSound(patterns: seq<Pattern>, records: seq<Record>)
    requires StagesFound(patterns, records)
    ensures exists p, choice :: p in patterns && |choice| == |p.sequence| && Spells(p, records, choice)
  {
    hide Scan, Spells;
    var k :| 0 <= k < |patterns| && Scan(patterns[k], records).0 == |patterns[k].sequence|;
    var choice := ScanSpells(patterns[k], records);
    assert patterns[k] in patterns;
  }

  ghost predicate NoneBetween(records: seq<Record>, from: nat, to: nat, attackClass: string) {
    forall k :: from <= k < to && k < |records| ==> records[k].attackClass != attackClass
  }

  /** A spelling that takes every stage at its first chance: between two of its records, and
      before the first, none has the class that comes next. */
  ghost predicate Leftmost(p: Pattern, records: seq<Record>, choice: seq<nat>) {
    && Spells(p, records, choice)
    && forall i :: 0 <= i < |choice| ==> NoneBetween(records, After(choice, i), choice[i], p.sequence[i])
  }

  /** After these stages the scan is stuck: every later record of the next class is past the gap. */
  ghost predicate Stuck(p: Pattern, records: seq<Record>, choice: seq<nat>) {
    |choice| < |p.sequence| ==>
      forall k :: After(choice, |choice|) <= k < |records| && records[k].attackClass == p.sequence[|choice|] ==>
        choice != [] && choice[|choice| - 1] < |records|
        && records[k].time - records[choice[|choice| - 1]].time > p.maxGap
  }

  lemma NoneBetweenMore(records: seq<Record>, r: Record, from: nat, to: nat, attackClass: string)
    requires NoneBetween(records, from, to, attackClass) && to <= |records|
    ensures NoneBetween(records + [r], from, to, attackClass)
  {}

  lemma LeftmostMore(p: Pattern, records: seq<Record>, r: Record, choice: seq<nat>)
    requires Leftmost(p, records, choice)
    ensures Leftmost(p, records + [r], choice)
  {
    hide NoneBetween;
    SpellsWiden(p, records, r, choice);
    forall i | 0 <= i < |choice|
      ensures NoneBetween(records + [r], After(choice, i), choice[i], p.sequence[i])
    {
      NoneBetweenMore(records, r, After(choice, i), choice[i], p.sequence[i]);
    }
  }

  /** One more record, not taken by the scan. */
  lemma StayLeftmost(p: Pattern, records: seq<Record>, r: Record, choice: seq<nat>)
    requires Leftmost(p, records, choice) && Stuck(p, records, choice)
    requires |choice| < |p.sequence| && r.attackClass == p.sequence[|choice|] ==>
               choice != [] && r.time - records[choice[|choice| - 1]].time > p.maxGap
    ensures Leftmost(p, records + [r], choice) && Stuck(p, records + [r], choice)
  {
    hide NoneBetween;
    LeftmostMore(p, records, r, choice);
  }

  /** In order of time, no record was passed over that is of the class now taken. */
  lemma NonePassedOver(p: Pattern, records: seq<Record>, r: Record, choice: seq<nat>)
    requires Spells(p, records, choice) && Stuck(p, records, choice) && Sorted(Times(records + [r]))
    requires |choice| < |p.sequence|
    requires choice != [] ==> r.time - records[choice[|choice| - 1]].time <= p.maxGap
    ensures NoneBetween(records, After(choice, |choice|), |records|, p.sequence[|choice|])
  {
    var all := records + [r];
    forall k | After(choice, |choice|) <= k < |records|
      ensures records[k].attackClass != p.sequence[|choice|]
    {
      assert Times(all)[k] == records[k].time && Times(all)[|records|] == r.time;
    }
  }

  /** One more record, taken. */
  lemma GrowLeftmost(p: Pattern, records: seq<Record>, r: Record, choice: seq<nat>)
    requires Leftmost(p, records, choice) && Stuck(p, records, choice) && Sorted(Times(records + [r]))
    requires |choice| < |p.sequence| && r.attackClass == p.sequence[|choice|]
    requires choice != [] ==> r.time - records[choice[|choice| - 1]].time <= p.maxGap
    ensures Leftmost(p, records + [r], choice + [|records|]) && Stuck(p, records + [r], choice + [|records|])
  {
    hide NoneBetween, Sorted;
    var all, more := records + [r], choice + [|records|];
    NonePassedOver(p, records, r, choice);
    NoneBetweenMore(records, r, After(choice, |choice|), |records|, p.sequence[|choice|]);
    LeftmostMore(p, records, r, choice);
    ExtendLeftmost(p, all, choice, |records|);
  }

  lemma ExtendLeftmost(p: Pattern, records: seq<Record>, choice: seq<nat>, k: nat)
    requires Leftmost(p, records, choice) && |choice| < |p.sequence| && After(choice, |choice|) <= k == |records| - 1
    requires records[k].attackClass == p.sequence[|choice|]
    requires choice != [] ==> records[k].time - records[choice[|choice| - 1]].time <= p.maxGap
    requires NoneBetween(records, After(choice, |choice|), k, p.sequence[|choice|])
    ensures Leftmost(p, records, choice + [k]) && Stuck(p, records, choice + [k])
  {
    hide NoneBetween, Spells;
    var more := choice + [k];
    SpellsAppend(p, records, choice, k);
    forall i | 0 <= i < |more| ensures NoneBetween(records, After(more, i), more[i], p.sequence[i]) {
      assert After(more, i) == After(choice, i);
    }
  }

  /** One step of the scan. */
  function ScanStep(p: Pattern, state: (nat, real), r: Record): (nat, real) {
    if state.0 < |p.sequence| && r.attackClass == p.sequence[state.0] && (state.0 == 0 || r.time - state.1 <= p.maxGap)
    then (state.0 + 1, r.time) else state
  }

  lemma ScanSnoc(p: Pattern, records: seq<Record>, r: Record)
    ensures Scan(p, records + [r]) == ScanStep(p, Scan(p, records), r)
  {
    assert (records + [r])[..|records|] == records;
  }

  /** The choice stands for the state of the scan: as many stages, the same last time. */
  ghost predicate Stands(p: Pattern, records: seq<Record>, choice: seq<nat>, state: (nat, real)) {
    && Leftmost(p, records, choice) && Stuck(p, records, choice) && |choice| == state.0
    && (choice != [] ==> choice[|choice| - 1] < |records| && records[choice[|choice| - 1]].time == state.1)
  }

  lemma StandsStep(p: Pattern, records: seq<Record>, r: Record, choice: seq<nat>, state: (nat, real))
    requires Stands(p, records, choice, state) && Sorted(Times(records + [r]))
    ensures var state' := ScanStep(p, state, r);
      Stands(p, records + [r], if state'.0 > state.0 then choice + [|records|] else choice, state')
  {
    hide Leftmost, Stuck, Spells, Sorted;
    if ScanStep(p, state, r).0 > state.0 {
      GrowLeftmost(p, records, r, choice);
    } else {
      LeftmostPlaces(p, records, choice);
      StayLeftmost(p, records, r, choice);
    }
  }

  /** In order of time, the scan's choice is leftmost, and it stops only when stuck. */
  lemma {:induction false} ScanIsLeftmost(p: Pattern, records: seq<Record>) returns (choice: seq<nat>)
    requires Sorted(Times(records))
    ensures Stands(p, records, choice, Scan(p, records))
    decreases |records|
  {
    hide Stands, Sorted, Scan, ScanStep, Times;
    choice := [];
    if records == [] {
      NothingScanned(p);
    } else {
      var n := |records| - 1;
      var before, r := records[..n], records[n];
      assert before + [r] == records;
      PrefixSorted(before, r);
      ScanSnoc(p, before, r);
      choice := ScanIsLeftmost(p, before);
      StandsStep(p, before, r, choice, Scan(p, before));
      choice := if ScanStep(p, Scan(p, before), r).0 > Scan(p, before).0 then choice + [n] else choice;
    }
  }

  lemma NothingScanned(p: Pattern)
    ensures Stands(p, [], [], Scan(p, []))
  {}

  lemma PrefixSorted(records: seq<Record>, r: Record)
    requires Sorted(Times(records + [r]))
    ensures Sorted(Times(records))
  {
    assert Times(records) == Times(records + [r])[..|records|];
  }

  lemma LeftmostPlaces(p: Pattern, records: seq<Record>, choice: seq<nat>)
    requires Leftmost(p, records, choice)
    ensures Spells(p, records, choice) && |choice| <= |p.sequence|
    ensures forall i :: 0 <= i < |choice| ==> choice[i] < |records|
  {}

  lemma NextIsUnique(p: Pattern, records: seq<Record>, a: seq<nat>, b: seq<nat>, i: nat)
    requires Leftmost(p, records, a) && Leftmost(p, records, b) && i < |a| && i < |b| && After(a, i) == After(b, i)
    ensures a[i] == b[i]
  {
    assert NoneBetween(records, After(a, i), a[i], p.sequence[i]) && NoneBetween(records, After(b, i), b[i], p.sequence[i]);
    assert records[a[i]].attackClass == p.sequence[i] && records[b[i]].attackClass == p.sequence[i];
  }

  /** Two leftmost spellings agree as far as both go. */
  lemma {:induction false} LeftmostIsUnique(p: Pattern, records: seq<Record>, a: seq<nat>, b: seq<nat>, n: nat)
    requires Leftmost(p, records, a) && Leftmost(p, records, b) && n <= |a| && n <= |b|
    ensures After(a, n) == After(b, n)
    decreases n
  {
    hide Leftmost;
    if n > 0 {
      LeftmostIsUnique(p, records, a, b, n - 1);
      NextIsUnique(p, records, a, b, n - 1);
    }
  }

  /** A longer leftmost spelling shows a way on. */
  lemma NotStuck(p: Pattern, records: seq<Record>, choice: seq<nat>, c: seq<nat>)
    requires Spells(p, records, choice) && Spells(p, records, c)
    requires |choice| < |c| && After(choice, |choice|) == After(c, |choice|)
    ensures !Stuck(p, records, choice)
  {
    var m := |choice|;
    assert records[c[m]].attackClass == p.sequence[m] && After(c, m) <= c[m] < |records|;
  }

  /** When the scan finds a pattern: exactly if taking every stage at its first chance never
      exceeds the gap. */
  lemma ScanFindsLeftmost(p: Pattern, records: seq<Record>)
    requires Sorted(Times(records))
    ensures Scan(p, records).0 == |p.sequence| <==> exists c :: |c| == |p.sequence| && Leftmost(p, records, c)
  {
    hide Scan, NoneBetween, Stuck, Spells, Sorted;
    var choice := ScanIsLeftmost(p, records);
    if c :| |c| == |p.sequence| && Leftmost(p, records, c) {
      LeftmostPlaces(p, records, choice);
      LeftmostPlaces(p, records, c);
      LeftmostIsUnique(p, records, choice, c, |choice|);
      if |choice| < |c| {
        NotStuck(p, records, choice, c);
      }
    }
  }

  /** No two records are further apart than the pattern allows. */
  ghost predicate WithinGap(p: Pattern, records: seq<Record>) {
    forall i, k :: 0 <= i < |records| && 0 <= k < |records| ==> records[k].time - records[i].time <= p.maxGap
  }

  /** On such a queue the scan gets as far as any spelling. */
  lemma {:induction false} ScanIsMaximal(p: Pattern, records: seq<Record>, choice: seq<nat>)
    requires WithinGap(p, records) && Spells(p, records, choice)
    ensures Scan(p, records).0 >= |choice|
    decreases |records|
  {
    if choice != [] {
      hide Spells, WithinGap;
      var n, m := |records| - 1, |choice| - 1;
      LastPlace(p, records, choice);
      if choice[m] == n {
        SpellsPrefix(p, records, choice, m);
        WithinPrefix(p, records);
        ScanIsMaximal(p, records[..n], choice[..m]);
        ScanTakes(p, records, choice);
      } else {
        SpellsPrefix(p, records, choice, |choice|);
        WithinPrefix(p, records);
        assert choice[..|choice|] == choice;
        ScanIsMaximal(p, records[..n], choice);
      }
    }
  }

  lemma LastPlace(p: Pattern, records: seq<Record>, choice: seq<nat>)
    requires Spells(p, records, choice) && choice != []
    ensures choice[|choice| - 1] <= |records| - 1 && |choice| <= |p.sequence|
    ensures |choice| > 1 ==> choice[|choice| - 2] < choice[|choice| - 1]
  {}

  lemma WithinPrefix(p: Pattern, records: seq<Record>)
    requires WithinGap(p, records) && records != []
    ensures WithinGap(p, records[..|records| - 1])
  {}

  /** If the last record completes a spelling and the scan was one short, it takes it. */
  lemma ScanTakes(p: Pattern, records: seq<Record>, choice: seq<nat>)
    requires WithinGap(p, records) && Spells(p, records, choice) && choice != [] && choice[|choice| - 1] == |records| - 1
    requires Scan(p, records[..|records| - 1]).0 >= |choice| - 1
    ensures Scan(p, records).0 >= |choice|
  {
    var own := ScanSpells(p, records[..|records| - 1]);
    if own != [] {
      assert records[own[|own| - 1]].time == Scan(p, records[..|records| - 1]).1;
    }
  }

  lemma SpellsPrefix(p: Pattern, records: seq<Record>, choice: seq<nat>, m: nat)
    requires Spells(p, records, choice) && records != [] && m <= |choice|
    requires m == |choice| || choice[m] == |records| - 1
    requires m > 0 ==> choice[m - 1] < |records| - 1
    ensures Spells(p, records[..|records| - 1], choice[..m])
  {
    Increasing(choice, m);
  }

  lemma {:induction false} Increasing(choice: seq<nat>, m: nat)
    requires m <= |choice| && forall i :: 0 < i < |choice| ==> choice[i - 1] < choice[i]
    ensures forall i :: 0 <= i < m ==> choice[i] <= choice[m - 1]
    decreases m
  {
    if m > 1 {
      Increasing(choice, m - 1);
    }
  }

  /** Some pattern is spelt out in full by a leftmost choice. */
  ghost predicate StagesSpelt(patterns: seq<Pattern>, records: seq<Record>) {
    exists k, choice :: 0 <= k < |patterns| && FullLeftmost(patterns[k], records, choice)
  }

  ghost predicate FullLeftmost(p: Pattern, records: seq<Record>, choice: seq<nat>) {
    |choice| == |p.sequence| && Leftmost(p, records, choice)
  }

  /** What the detector decides on a queue in order of time, exactly. */
  lemma StagesFoundExactly(patterns: seq<Pattern>, records: seq<Record>)
    requires Sorted(Times(records))
    ensures StagesFound(patterns, records) <==> StagesSpelt(patterns, records)
  {
    hide Scan, Leftmost, Sorted;
    forall k | 0 <= k < |patterns|
      ensures Scan(patterns[k], records).0 == |patterns[k].sequence| <==>
              exists c :: FullLeftmost(patterns[k], records, c)
    {
      ScanFindsLeftmost(patterns[k], records);
      assert forall c :: FullLeftmost(patterns[k], records, c) <==>
                         |c| == |patterns[k].sequence| && Leftmost(patterns[k], records, c);
    }
    if StagesFound(patterns, records) {
      var k :| 0 <= k < |patterns| && Scan(patterns[k], records).0 == |patterns[k].sequence|;
      var c :| FullLeftmost(patterns[k], records, c);
    }
  }

  /** On a queue whose records are all within every pattern's gap of each other, it misses
      nothing: it reports exactly if some pattern is spelt out at all. */
  lemma CompleteWithinGap(patterns: seq<Pattern>, records: seq<Record>)
    requires forall k :: 0 <= k < |patterns| ==> WithinGap(patterns[k], records)
    ensures StagesFound(patterns, records) <==>
            exists p, choice :: p in patterns && |choice| == |p.sequence| && Spells(p, records, choice)
  {
    hide Scan, Spells, WithinGap;
    if StagesFound(patterns, records) {
      MultiStageIsSound(patterns, records);
    }
    if p, choice :| p in patterns && |choice| == |p.sequence| && Spells(p, records, choice) {
      var k :| 0 <= k < |patterns| && patterns[k] == p;
      ScanIsMaximal(p, records, choice);
      ScanAtMost(p, records);
    }
  }

  lemma {:induction false} ScanAtMost(p: Pattern, records: seq<Record>)
    ensures Scan(p, records).0 <= |p.sequence|
    decreases |records|
  {
    if records != [] {
      ScanAtMost(p, records[..|records| - 1]);
    }
  }

  /** Otherwise it can miss one: a first stage seen too early hides a later run of the whole
      pattern. */
  lemma MultiStageMisses(a: Record, p: Pattern)
    requires p == Pattern("p", ["scan", "brute"], 10.0)
    ensures var r := a.(attackClass := "scan", time := 0.0);
      var records := [r, r.(time := 100.0), r.(attackClass := "brute", time := 105.0)];
      Spells(p, records, [1, 2]) && !StagesFound([p], records)
  {
    var r := a.(attackClass := "scan", time := 0.0);
    var s, t := r.(time := 100.0), r.(attackClass := "brute", time := 105.0);
    var records := [r, s, t];
    assert records[..2] == [r, s] && [r, s][..1] == [r] && [r][..0] == [];
    assert "scan"[0] != "brute"[0];
    assert Scan(p, [r]) == (1, 0.0);
    assert Scan(p, [r, s]) == (1, 0.0);
    assert Scan(p, records) == (1, 0.0);
  }

  method DetectMultiStage(patterns: seq<Pattern>, records: seq<Record>) returns (hit: bool)
    ensures hit <==> StagesFound(patterns, records)
  {
    hide Scan;
    for k := 0 to |patterns|
      invariant forall j :: 0 <= j < k ==> Scan(patterns[j], records).0 != |patterns[j].sequence|
    {
      var matched := ScanPattern(patterns[k], records);
      if matched == |patterns[k].sequence| {
        return true;
      }
    }
    return false;
  }

  method ScanPattern(p: Pattern, records: seq<Record>) returns (matched: nat)
    ensures matched == Scan(p, records).0
  {
    matched := 0;
    var last := 0.0;
    for i := 0 to |records|
      invariant (matched, last) == Scan(p, records[..i])
    {
      assert records[..i + 1][..i] == records[..i];
      var r := records[i];
      if matched < |p.sequence| && r.attackClass == p.sequence[matched] {
        if matched == 0 || r.time - last <= p.maxGap {
          matched, last := matched + 1, r.time;
        }
      }
    }
    assert records[..|records|] == records;
  }

  // ---- Distributed and slow attacks ----

  function RecentSources(records: seq<Record>, cutoff: real): set<string> {
    set k | 0 <= k < |records| && records[k].time >= cutoff :: records[k].source
  }

  method DetectDistributed(records: seq<Record>, cutoff: real, threshold: nat) returns (hit: bool)
    ensures hit <==> |RecentSources(records, cutoff)| >= threshold
  {
    var sources: set<string> := {};
    for i := 0 to |records|
      invariant sources == RecentSources(records[..i], cutoff)
    {
      assert forall k :: 0 <= k < i ==> records[..i + 1][k] == records[..i][k];
      assert records[..i + 1][i] == records[i];
      if records[i].time >= cutoff {
        sources := sources + {records[i].source};
      }
    }
    assert records[..|records|] == records;
    return |sources| >= threshold;
  }

  function CountSlow(records: seq<Record>, cutoff: real, score: real): nat
    decreases |records|
  {
    if records == [] then 0
    else CountSlow(records[..|records| - 1], cutoff, score)
         + if records[|records| - 1].time >= cutoff && records[|records| - 1].score >= score then 1 else 0
  }

  method DetectSlow(records: seq<Record>, cutoff: real, threshold: nat, score: real) returns (hit: bool)
    ensures hit <==> CountSlow(records, cutoff, score) >= threshold
  {
    var count := 0;
    for i := 0 to |records|
      invariant count == CountSlow(records[..i], cutoff, score)
    {
      assert records[..i + 1][..i] == records[..i];
      if records[i].time >= cutoff && records[i].score >= score {
        count := count + 1;
      }
    }
    assert records[..|records|] == records;
    return count >= threshold;
  }

  // ---- The engine ----

  datatype Result = Result(
    repeated: bool, multiStage: bool, distributed: bool, slow: bool,
    score: real, campaign: string, upgraded: Decision)

  function Clamp(x: real): real {
    if x < 0.0 then 0.0 else if x > 1.0 then 1.0 else x
  }

  function Weighted(c: Config, repeated: bool, staged: bool, distributed: bool, slow: bool): real {
    (if repeated then c.repeatWeight else 0.0) + (if staged then c.stageWeight else 0.0)
    + (if distributed then c.distWeight else 0.0) + (if slow then c.slowWeight else 0.0)
  }

  /** One address: its queue is the end of its history, in order of time, of its own records. */
  ghost predicate AddressInv(queue: seq<Record>, history: seq<Record>, last: real, max: nat, ip: string) {
    IsTail(queue, history, max) && InOrder(history, last) && forall k :: 0 <= k < |history| ==> history[k].source == ip
  }

  ghost predicate AllAddresses(queues: map<string, seq<Record>>, histories: map<string, seq<Record>>, last: real,
      max: nat) {
    forall ip :: AddressInv(Get(queues, ip), Get(histories, ip), last, max, ip)
  }

  ghost predicate AllBounded(queues: map<string, seq<Record>>, max: nat) {
    forall key :: |Get(queues, key)| <= max
  }

  lemma OneAddress(queues: map<string, seq<Record>>, histories: map<string, seq<Record>>, last: real, max: nat,
      ip: string)
    requires AllAddresses(queues, histories, last, max)
    ensures AddressInv(Get(queues, ip), Get(histories, ip), last, max, ip)
  {}

  /** A queue is in order of time, being the end of its history. */
  lemma QueueInOrder(queue: seq<Record>, history: seq<Record>, last: real, max: nat, ip: string)
    requires AddressInv(queue, history, last, max, ip)
    ensures Sorted(Times(queue))
  {
    assert Times(queue) == Times(history)[|history| - |queue|..];
  }

  lemma LaterKeeps(queue: seq<Record>, history: seq<Record>, last: real, now: real, max: nat, ip: string)
    requires AddressInv(queue, history, last, max, ip) && now >= last
    ensures AddressInv(queue, history, now, max, ip)
  {
    hide IsTail;
  }

  lemma RecordKeeps(queue: seq<Record>, history: seq<Record>, last: real, max: nat, r: Record)
    requires AddressInv(queue, history, last, max, r.source) && r.time >= last
    ensures AddressInv(Pushed(queue, r, max), history + [r], r.time, max, r.source)
  {
    hide IsTail, Pushed;
    PushKeepsTail(queue, history, r, max);
    assert Times(history + [r]) == Times(history) + [r.time];
    forall i | 0 <= i < |history| ensures Times(history)[i] <= r.time {
      assert Times(history)[i] == history[i].time;
    }
  }

  lemma StoreKeeps(queues: map<string, seq<Record>>, histories: map<string, seq<Record>>, last: real, max: nat,
      r: Record)
    requires AllAddresses(queues, histories, last, max) && r.time >= last
    ensures AllAddresses(queues[r.source := Pushed(Get(queues, r.source), r, max)],
                         histories[r.source := Get(histories, r.source) + [r]], r.time, max)
  {
    hide AddressInv, Pushed;
    var queues' := queues[r.source := Pushed(Get(queues, r.source), r, max)];
    var histories' := histories[r.source := Get(histories, r.source) + [r]];
    forall ip ensures AddressInv(Get(queues', ip), Get(histories', ip), r.time, max, ip) {
      OneAddress(queues, histories, last, max, ip);
      if ip == r.source {
        RecordKeeps(Get(queues, ip), Get(histories, ip), last, max, r);
      } else {
        LaterKeeps(Get(queues, ip), Get(histories, ip), last, r.time, max, ip);
      }
    }
  }

  lemma StoreBounded(queues: map<string, seq<Record>>, max: nat, r: Record)
    requires AllBounded(queues, max)
    ensures AllBounded(queues[r.destination := Pushed(Get(queues, r.destination), r, max)], max)
  {
    hide Pushed;
    PushedSize(Get(queues, r.destination), r, max);
    var queues' := queues[r.destination := Pushed(Get(queues, r.destination), r, max)];
    forall key ensures |Get(queues', key)| <= max {
      if key != r.destination {
        assert |Get(queues, key)| <= max;
      }
    }
  }

  lemma RemoveKeeps(queues: map<string, seq<Record>>, histories: map<string, seq<Record>>, last: real, max: nat,
      ip: string)
    requires AllAddresses(queues, histories, last, max)
    ensures AllAddresses(queues - {ip}, histories - {ip}, last, max)
  {
    forall a ensures AddressInv(Get(queues - {ip}, a), Get(histories - {ip}, a), last, max, a) {
      OneAddress(queues, histories, last, max, a);
    }
  }

  lemma RemoveBounded(queues: map<string, seq<Record>>, max: nat, host: string)
    requires AllBounded(queues, max)
    ensures AllBounded(queues - {host}, max)
  {
    forall key ensures |Get(queues - {host}, key)| <= max {
      assert |Get(queues, key)| <= max;
    }
  }

  class CorrelationEngine {
    const c: Config
    var ipRecords: map<string, seq<Record>>
    var hostRecords: map<string, seq<Record>>
    var globalRecords: seq<Record>
    var campaigns: map<string, Campaign>
    /** Everything ever recorded per address since its last reset, and the records absorbed. */
    ghost var ipHistory: map<string, seq<Record>>
    ghost var absorbed: nat
    ghost var last: real

    ghost predicate Valid()
      reads this
    {
      && AllAddresses(ipRecords, ipHistory, last, c.maxPerIp)
      && AllBounded(hostRecords, c.maxPerHost)
      && |globalRecords| <= c.maxGlobal
      && CampaignInv(campaigns, c.maxCampaigns, absorbed)
    }

    constructor (c: Config)
      ensures Valid() && this.c == c && ipHistory == map[] && absorbed == 0 && campaigns == map[]
    {
      this.c := c;
      ipRecords, hostRecords, globalRecords, campaigns := map[], map[], [], map[];
      ipHistory, absorbed, last := map[], 0, 0.0;
    }

    method Store(r: Record)
      requires Valid() && r.time >= last
      modifies this`ipRecords, this`hostRecords, this`globalRecords, this`ipHistory, this`last
      ensures Valid() && last == r.time
      ensures ipHistory == old(ipHistory)[r.source := Get(old(ipHistory), r.source) + [r]]
      ensures ipRecords == old(ipRecords)[r.source := Pushed(Get(old(ipRecords), r.source), r, c.maxPerIp)]
      ensures hostRecords == old(hostRecords)[r.destination := Pushed(Get(old(hostRecords), r.destination), r, c.maxPerHost)]
      ensures globalRecords == Pushed(old(globalRecords), r, c.maxGlobal)
    {
      hide CampaignInv, Pushed, AllAddresses, AllBounded;
      StoreKeeps(ipRecords, ipHistory, last, c.maxPerIp, r);
      StoreBounded(hostRecords, c.maxPerHost, r);
      PushedSize(globalRecords, r, c.maxGlobal);
      ipRecords := ipRecords[r.source := Pushed(Get(ipRecords, r.source), r, c.maxPerIp)];
      ipHistory := ipHistory[r.source := Get(ipHistory, r.source) + [r]];
      hostRecords := hostRecords[r.destination := Pushed(Get(hostRecords, r.destination), r, c.maxPerHost)];
      globalRecords := Pushed(globalRecords, r, c.maxGlobal);
      last := r.time;
    }

    method Detect(ip: string, host: string, now: real) returns (repeated: bool, staged: bool, distributed: bool, slow: bool)
      requires Valid()
      ensures c.repeatThreshold <= c.maxPerIp ==>
                (repeated <==> CountSince(Times(Get(ipHistory, ip)), now - c.repeatWindow) >= c.repeatThreshold)
      ensures staged <==> c.multiStage && StagesSpelt(c.patterns, Get(ipRecords, ip))
      ensures distributed <==> |RecentSources(Get(hostRecords, host), now - c.distWindow)| >= c.sourceThreshold
      ensures slow <==> CountSlow(Get(ipRecords, ip), now - c.slowWindow, c.slowScore) >= c.slowThreshold
    {
      hide CampaignInv, IsTail, StagesFound, StagesSpelt, CountSlow, RecentSources, CountSince, Times, Sorted;
      hide AllAddresses, AllBounded;
      var queue, hosts := Get(ipRecords, ip), Get(hostRecords, host);
      OneAddress(ipRecords, ipHistory, last, c.maxPerIp, ip);
      if c.repeatThreshold <= c.maxPerIp {
        RepeatSeesAll(queue, Get(ipHistory, ip), c.maxPerIp, now - c.repeatWindow, c.repeatThreshold);
      }
      repeated := DetectRepeat(queue, now - c.repeatWindow, c.repeatThreshold);
      staged := false;
      if c.multiStage {
        staged := DetectMultiStage(c.patterns, queue);
        QueueInOrder(queue, Get(ipHistory, ip), last, c.maxPerIp, ip);
        StagesFoundExactly(c.patterns, queue);
      }
      distributed := DetectDistributed(hosts, now - c.distWindow, c.sourceThreshold);
      slow := DetectSlow(queue, now - c.slowWindow, c.slowThreshold, c.slowScore);
    }

    method TrackCampaign(r: Record) returns (id: string)
      requires Valid()
      modifies this`campaigns, this`absorbed
      ensures Valid()
      ensures exists grew :: CampaignStep(old(campaigns), campaigns, r, r.time, c.maxCampaigns, grew)
                && absorbed == old(absorbed) + (if grew then 1 else 0)
      ensures Covers(campaigns, r.source, id)
    {
      hide CampaignInv, CampaignStep, AllAddresses, AllBounded, Covers;
      var grew;
      ghost var before := campaigns;
      campaigns, grew := UpdateCampaign(campaigns, r, r.time, c.maxCampaigns);
      CampaignsAreConserved(before, campaigns, r, r.time, c.maxCampaigns, grew, absorbed);
      absorbed := absorbed + (if grew then 1 else 0);
      id := CampaignFor(campaigns, r.source);
    }

    /** A record that is not ignored. Repeats are decided as the address's whole history would;
        a multi-stage hit is a spelt-out pattern in the address's queue. */
    method Correlate(r: Record) returns (res: Result)
      requires Valid() && r.time >= last
      modifies this
      ensures Valid() && last == r.time
      ensures ipHistory == old(ipHistory)[r.source := Get(old(ipHistory), r.source) + [r]]
      ensures c.repeatThreshold <= c.maxPerIp ==>
                (res.repeated <==> CountSince(Times(Get(ipHistory, r.source)), r.time - c.repeatWindow) >= c.repeatThreshold)
      ensures ipRecords == old(ipRecords)[r.source := Pushed(Get(old(ipRecords), r.source), r, c.maxPerIp)]
      ensures hostRecords == old(hostRecords)[r.destination := Pushed(Get(old(hostRecords), r.destination), r, c.maxPerHost)]
      ensures globalRecords == Pushed(old(globalRecords), r, c.maxGlobal)
      ensures res.multiStage <==> c.multiStage && StagesSpelt(c.patterns, Get(ipRecords, r.source))
      ensures res.distributed <==> |RecentSources(Get(hostRecords, r.destination), r.time - c.distWindow)| >= c.sourceThreshold
      ensures res.slow <==> CountSlow(Get(ipRecords, r.source), r.time - c.slowWindow, c.slowScore) >= c.slowThreshold
      ensures var score := Weighted(c, res.repeated, res.multiStage, res.distributed, res.slow);
        res.score == Clamp(score) && res.upgraded == if score > 0.4 && r.decision == Alert then Escalate else r.decision
      ensures exists grew :: CampaignStep(old(campaigns), campaigns, r, r.time, c.maxCampaigns, grew)
                && absorbed == old(absorbed) + (if grew then 1 else 0)
      ensures Covers(campaigns, r.source, res.campaign)
    {
      hide CampaignInv, CampaignStep, IsTail, Pushed, StagesFound, StagesSpelt, CountSlow, RecentSources, CountSince, Times;
      hide AllAddresses, AllBounded, Weighted, Covers;
      Store(r);
      var repeated, staged, distributed, slow := Detect(r.source, r.destination, r.time);
      var score := Weighted(c, repeated, staged, distributed, slow);
      var id := TrackCampaign(r);
      res := Result(repeated, staged, distributed, slow, Clamp(score), id,
                    if score > 0.4 && r.decision == Alert then Escalate else r.decision);
    }

    /** A record whose decision is Ignore leaves no trace. */
    method Process(r: Record) returns (res: Result)
      requires Valid() && r.time >= last
      modifies this
      ensures Valid()
      ensures r.decision == Ignore ==> res == Result(false, false, false, false, 0.0, "", Ignore)
      ensures r.decision == Ignore ==> ipHistory == old(ipHistory) && campaigns == old(campaigns) && absorbed == old(absorbed)
      ensures r.decision == Ignore ==> ipRecords == old(ipRecords) && hostRecords == old(hostRecords)
                                       && globalRecords == old(globalRecords) && last == old(last)
      ensures r.decision != Ignore ==> ipHistory == old(ipHistory)[r.source := Get(old(ipHistory), r.source) + [r]]
      ensures r.decision != Ignore ==>
                && ipRecords == old(ipRecords)[r.source := Pushed(Get(old(ipRecords), r.source), r, c.maxPerIp)]
                && hostRecords == old(hostRecords)[r.destination := Pushed(Get(old(hostRecords), r.destination), r, c.maxPerHost)]
                && globalRecords == Pushed(old(globalRecords), r, c.maxGlobal)
      ensures r.decision != Ignore ==> (res.multiStage <==> c.multiStage && StagesSpelt(c.patterns, Get(ipRecords, r.source)))
      ensures r.decision != Ignore ==> Covers(campaigns, r.source, res.campaign)
      ensures r.decision != Ignore && c.repeatThreshold <= c.maxPerIp ==>
                (res.repeated <==> CountSince(Times(Get(ipHistory, r.source)), r.time - c.repeatWindow) >= c.repeatThreshold)
    {
      hide *;
      if r.decision == Ignore {
        return Result(false, false, false, false, 0.0, "", Ignore);
      }
      res := Correlate(r);
    }

    method Reset(ip: string, host: string)
      requires Valid()
      modifies this
      ensures Valid() && ipHistory == old(ipHistory) - {ip} && campaigns == old(campaigns) && absorbed == old(absorbed)
    {
      hide CampaignInv, AllAddresses, AllBounded;
      RemoveKeeps(ipRecords, ipHistory, last, c.maxPerIp, ip);
      RemoveBounded(hostRecords, c.maxPerHost, host);
      ipRecords, hostRecords, ipHistory := ipRecords - {ip}, hostRecords - {host}, ipHistory - {ip};
    }
  }

  lemma PushedSize(queue: seq<Record>, r: Record, max: nat)
    requires |queue| <= max
    ensures |Pushed(queue, r, max)| <= max
  {}
}
