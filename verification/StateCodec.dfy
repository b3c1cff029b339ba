/** save_state / load_state of include/ids.hpp: the version 3 state file as bytes. The
    file is the value that save builds and load reads; opening and closing it is outside
    the model. */
module StateCodec {
  import opened Crc32
  import opened LittleEndian

  const MAGIC: bv32 := 0x49445332
  const LEVELS := 4
  const STATE_DIM := 128

  // Bytes of the header, of the global state, and of one accumulator.
  const HEADER := 8
  const GLOBAL_SIZE := 4 * (LEVELS * STATE_DIM) + 4 * STATE_DIM + 8
  const ACCUM_SIZE := 64

  // ---- Data model ----

  datatype GlobalState = GlobalState(
    levels: seq<seq<bv32>>,       // level_states, one array per hierarchy level
    baseline: seq<bv32>,
    anomalyHistory: bv32,
    driftScore: bv32)
  {
    predicate Shaped() {
      && |levels| == LEVELS
      && (forall i :: 0 <= i < LEVELS ==> |levels[i]| == STATE_DIM)
      && |baseline| == STATE_DIM
    }

    predicate LevelsFinite() {
      forall i :: 0 <= i < |levels| ==> AllFinite(levels[i])
    }
  }

  datatype Accum = Accum(
    segmentCount: U64, count: U64, scoreAcc: bv32, rateAcc: bv32, errorCount: U64, typeFreq: seq<bv32>)
  {
    predicate Shaped() {
      |typeFreq| == 8
    }
  }

  /** A per-IP instance: the persisted accumulator, and an opaque tag for everything that is
      not persisted (SSM state, flush clock, dominant type), 0 in a new instance. */
  datatype Segment = Segment(accum: Accum, live: nat)

  const EMPTY_ACCUM := Accum(0, 0, 0, 0, 0, [0, 0, 0, 0, 0, 0, 0, 0])

  const FRESH := Segment(EMPTY_ACCUM, 0)

  type Segments = map<Bytes, Segment>

  datatype Image = Image(global: GlobalState, segments: Segments)

  ghost predicate Wellformed(m: Image) {
    && m.global.Shaped()
    && (forall k | k in m.segments :: m.segments[k].accum.Shaped())
    && |m.segments| < LIMIT64
  }

  // ---- What save writes ----

  function Flatten(levels: seq<seq<bv32>>): seq<bv32>
    decreases |levels|
  {
    if levels == [] then [] else levels[0] + Flatten(levels[1..])
  }

  function GlobalBytes(g: GlobalState): Bytes {
    WordBytes(Flatten(g.levels)) + WordBytes(g.baseline) + Le32(g.anomalyHistory) + Le32(g.driftScore)
  }

  function AccumBytes(a: Accum): Bytes {
    LeBytes(a.segmentCount, 8) + LeBytes(a.count, 8) + Le32(a.scoreAcc) + Le32(a.rateAcc)
    + LeBytes(a.errorCount, 8) + WordBytes(a.typeFreq)
  }

  /** The length field has two bytes, and only that many bytes of the key are written. */
  function KeptKey(key: Bytes): Bytes {
    key[..|key| % 0x10000]
  }

  function RecordBytes(key: Bytes, a: Accum): Bytes {
    LeBytes(|KeptKey(key)|, 2) + KeptKey(key) + AccumBytes(a)
  }

  /** Records in iteration order of the hash map. */
  function RecordsBytes(order: seq<Bytes>, m: Segments): Bytes
    requires forall k | k in order :: k in m
    decreases |order|
  {
    if order == [] then [] else RecordBytes(order[0], m[order[0]].accum) + RecordsBytes(order[1..], m)
  }

  /** Some order in which the map may be iterated. */
  ghost predicate IterationOrder(order: seq<Bytes>, m: Segments) {
    && (forall k :: k in order <==> k in m)
    && (forall i, j :: 0 <= i < j < |order| ==> order[i] != order[j])
  }

  function HeaderBytes(version: bv32): Bytes {
    Le32(MAGIC) + Le32(version)
  }

  function Body(m: Image, order: seq<Bytes>): Bytes
    requires forall k | k in order :: k in m.segments
  {
    HeaderBytes(3) + GlobalBytes(m.global) + LeBytes(|order|, 8) + RecordsBytes(order, m.segments)
  }

  function Saved(m: Image, order: seq<Bytes>): Bytes
    requires forall k | k in order :: k in m.segments
  {
    var body := Body(m, order);
    body + Le32(Crc(body, 0))
  }

  // ---- What load reads ----

  function ParseLevels(b: Bytes, n: nat): (r: seq<seq<bv32>>)
    requires |b| == 4 * STATE_DIM * n
    ensures |r| == n
    decreases n
  {
    if n == 0 then []
    else [BytesWords(b[..4 * STATE_DIM], STATE_DIM)] + ParseLevels(b[4 * STATE_DIM..], n - 1)
  }

  function ParseGlobal(b: Bytes): GlobalState
    requires |b| == GLOBAL_SIZE
  {
    GlobalState(ParseLevels(b[..2048], LEVELS), BytesWords(b[2048..2560], STATE_DIM),
                Pack(b[2560..2564]), Pack(b[2564..]))
  }

  function ParseU64(b: Bytes): U64
    requires |b| == 8
  {
    LeValueBound(b);
    Powers();
    LeValue(b)
  }

  function ParseAccum(b: Bytes): (a: Accum)
    requires |b| == ACCUM_SIZE
    ensures a.Shaped()
  {
    Accum(ParseU64(b[..8]), ParseU64(b[8..16]), Pack(b[16..20]), Pack(b[20..24]), ParseU64(b[24..32]),
          BytesWords(b[32..], 8))
  }

  /** getOrCreateL1: an instance already there keeps its state. */
  function Touch(m: Segments, key: Bytes): Segments {
    if key in m then m else m[key := FRESH]
  }

  function Restore(m: Segments, key: Bytes, a: Accum): Segments
    requires key in m
  {
    m[key := m[key].(accum := a)]
  }

  /** n records from the front of b. The flag is the return value of load; what was
      restored before a failure stays restored. */
  function LoadRecords(b: Bytes, n: nat, version: bv32, m: Segments): (bool, Segments)
    decreases n
  {
    if n == 0 then (true, m)
    else if |b| < 2 then (false, m)
    else
      var len := LeValue(b[..2]);
      if |b| < 2 + len then (false, m)
      else
        var key, rest, touched := b[2..2 + len], b[2 + len..], Touch(m, b[2..2 + len]);
        if version < 2 then LoadRecords(rest, n - 1, version, touched)
        else if |rest| < ACCUM_SIZE then (false, touched)
        else LoadRecords(rest[ACCUM_SIZE..], n - 1, version, Restore(touched, key, ParseAccum(rest[..ACCUM_SIZE])))
  }

  predicate HeaderOk(f: Bytes) {
    && |f| >= HEADER
    && Pack(f[..4]) == MAGIC
    && (Pack(f[4..8]) == 1 || Pack(f[4..8]) == 2 || Pack(f[4..8]) == 3)
  }

  function Version(f: Bytes): bv32
    requires |f| >= HEADER
  {
    Pack(f[4..8])
  }

  /** The last four bytes are the CRC of everything before them. */
  predicate TrailerOk(f: Bytes)
    requires |f| >= 4
  {
    Pack(f[|f| - 4..]) == Crc(f[..|f| - 4], 0)
  }

  /** The outcome of load_state on file f for a pipeline in state s: the returned flag and
      the state left behind. */
  function Load(f: Bytes, s: Image): (bool, Image) {
    if !HeaderOk(f) then (false, s)
    else if Version(f) >= 3 && !TrailerOk(f) then (false, s)
    else if |f| < HEADER + GLOBAL_SIZE then (false, s)
    else if HEADER + GLOBAL_SIZE >= |f| - (if Version(f) >= 3 then 4 else 0) then (false, s)
    else
      var g := ParseGlobal(f[HEADER..HEADER + GLOBAL_SIZE]);
      if !g.LevelsFinite() then (false, s)
      else if |f| < HEADER + GLOBAL_SIZE + 8 then (false, s.(global := g))
      else
        var n := LeValue(f[HEADER + GLOBAL_SIZE..HEADER + GLOBAL_SIZE + 8]);
        var (ok, m) := LoadRecords(f[HEADER + GLOBAL_SIZE + 8..], n, Version(f), s.segments);
        (ok, Image(g, m))
  }

  // ---- Parsing undoes writing ----

  lemma {:induction false} FlattenSize(levels: seq<seq<bv32>>)
    requires forall i :: 0 <= i < |levels| ==> |levels[i]| == STATE_DIM
    ensures |Flatten(levels)| == STATE_DIM * |levels|
    decreases |levels|
  {
    if levels != [] {
      FlattenSize(levels[1..]);
    }
  }

  lemma FlatBytesSize(levels: seq<seq<bv32>>)
    requires forall i :: 0 <= i < |levels| ==> |levels[i]| == STATE_DIM
    ensures |WordBytes(Flatten(levels))| == 4 * STATE_DIM * |levels|
  {
    FlattenSize(levels);
  }

  lemma FlatBytesStep(levels: seq<seq<bv32>>)
    requires levels != []
    ensures WordBytes(Flatten(levels)) == WordBytes(levels[0]) + WordBytes(Flatten(levels[1..]))
  {
    hide WordBytes;
    WordBytesConcat(levels[0], Flatten(levels[1..]));
  }

  lemma {:induction false} LevelsRoundTrip(levels: seq<seq<bv32>>)
    requires forall i :: 0 <= i < |levels| ==> |levels[i]| == STATE_DIM
    ensures |WordBytes(Flatten(levels))| == 4 * STATE_DIM * |levels|
    ensures ParseLevels(WordBytes(Flatten(levels)), |levels|) == levels
    decreases |levels|
  {
    hide *;
    FlatBytesSize(levels);
    if levels == [] {
      NoLevels();
    } else {
      var n := |levels| - 1;
      var others := WordBytes(Flatten(levels[1..]));
      FlatBytesStep(levels);
      LevelsRoundTrip(levels[1..]);
      assert |levels[1..]| == n;
      ParseOneLevel(levels[0], others, n);
      assert [levels[0]] + levels[1..] == levels;
    }
  }

  lemma ParseOneLevel(level: seq<bv32>, others: Bytes, n: nat)
    requires |level| == STATE_DIM && |others| == 4 * STATE_DIM * n
    ensures ParseLevels(WordBytes(level) + others, n + 1) == [level] + ParseLevels(others, n)
  {
    hide WordBytes, BytesWords;
    Joint(WordBytes(level), others);
    WordsRoundTrip(level);
  }

  lemma GlobalRoundTrip(g: GlobalState)
    requires g.Shaped()
    ensures |GlobalBytes(g)| == GLOBAL_SIZE && ParseGlobal(GlobalBytes(g)) == g
  {
    hide WordBytes, BytesWords, Le32, Pack, ParseLevels, Flatten;
    var a, c, d, e := WordBytes(Flatten(g.levels)), WordBytes(g.baseline), Le32(g.anomalyHistory), Le32(g.driftScore);
    LevelsRoundTrip(g.levels);
    WordsRoundTrip(g.baseline);
    Le32RoundTrip(g.anomalyHistory);
    Le32RoundTrip(g.driftScore);
    var b := GlobalBytes(g);
    assert b[..2048] == a && b[2048..2560] == c && b[2560..2564] == d && b[2564..] == e;
  }

  lemma AccumRoundTrip(a: Accum)
    requires a.Shaped()
    ensures |AccumBytes(a)| == ACCUM_SIZE && ParseAccum(AccumBytes(a)) == a
  {
    hide WordBytes, BytesWords, Le32, Pack, LeBytes, LeValue;
    var b := AccumBytes(a);
    Le64RoundTrip(a.segmentCount);
    Le64RoundTrip(a.count);
    Le64RoundTrip(a.errorCount);
    Le32RoundTrip(a.scoreAcc);
    Le32RoundTrip(a.rateAcc);
    WordsRoundTrip(a.typeFreq);
    assert b[..8] == LeBytes(a.segmentCount, 8) && b[8..16] == LeBytes(a.count, 8);
    assert b[16..20] == Le32(a.scoreAcc) && b[20..24] == Le32(a.rateAcc);
    assert b[24..32] == LeBytes(a.errorCount, 8) && b[32..] == WordBytes(a.typeFreq);
  }

  /** Restoring the records of m in the given order over s, under the keys that were written. */
  function Overlay(order: seq<Bytes>, m: Segments, s: Segments): Segments
    requires forall k | k in order :: k in m
    decreases |order|
  {
    if order == [] then s
    else Overlay(order[1..], m, Restore(Touch(s, KeptKey(order[0])), KeptKey(order[0]), m[order[0]].accum))
  }

  lemma RecordLayout(key: Bytes, a: Accum, others: Bytes)
    requires a.Shaped()
    ensures var kept, b := KeptKey(key), RecordBytes(key, a) + others;
      && |b| >= 2 + |kept| + ACCUM_SIZE
      && LeValue(b[..2]) == |kept| && b[2..2 + |kept|] == kept
      && b[2 + |kept|..] == AccumBytes(a) + others
  {
    hide LeBytes, LeValue, AccumBytes, ParseAccum;
    var kept := KeptKey(key);
    LeTruncates(|kept|, 2);
    Powers();
    AccumRoundTrip(a);
    var after := AccumBytes(a) + others;
    ThreeParts(LeBytes(|kept|, 2), kept, after);
    assert RecordBytes(key, a) + others == LeBytes(|kept|, 2) + kept + after;
  }

  lemma RecordLoads(key: Bytes, a: Accum, others: Bytes, n: nat, version: bv32, s: Segments)
    requires a.Shaped() && version >= 2
    ensures var kept := KeptKey(key);
      LoadRecords(RecordBytes(key, a) + others, n + 1, version, s)
      == LoadRecords(others, n, version, Restore(Touch(s, kept), kept, a))
  {
    hide LeValue, ParseAccum, AccumBytes, RecordBytes, KeptKey, Touch, Restore;
    RecordLayout(key, a, others);
    AccumRoundTrip(a);
    Joint(AccumBytes(a), others);
    TouchHas(s, KeptKey(key));
  }

  lemma ThreeParts(x: Bytes, y: Bytes, z: Bytes)
    ensures var b := x + y + z;
      |b| == |x| + |y| + |z| && b[..|x|] == x && b[|x|..|x| + |y|] == y && b[|x| + |y|..] == z
  {}

  lemma {:induction false} RecordsLoad(order: seq<Bytes>, m: Segments, tail: Bytes, version: bv32, s: Segments)
    requires forall k | k in order :: k in m && m[k].accum.Shaped()
    requires version >= 2
    ensures LoadRecords(RecordsBytes(order, m) + tail, |order|, version, s) == (true, Overlay(order, m, s))
    decreases |order|
  {
    hide RecordBytes, LoadRecords, KeptKey, Touch, Restore;
    if order == [] {
      NoRecords(tail, version, s);
      assert RecordsBytes(order, m) + tail == tail;
    } else {
      var a := m[order[0]].accum;
      var others := RecordsBytes(order[1..], m) + tail;
      assert RecordsBytes(order, m) + tail == RecordBytes(order[0], a) + others;
      RecordLoads(order[0], a, others, |order[1..]|, version, s);
      TouchHas(s, KeptKey(order[0]));
      RecordsLoad(order[1..], m, tail, version, Restore(Touch(s, KeptKey(order[0])), KeptKey(order[0]), a));
    }
  }

  lemma NoRecords(b: Bytes, version: bv32, s: Segments)
    ensures LoadRecords(b, 0, version, s) == (true, s)
  {}

  lemma TouchHas(s: Segments, key: Bytes)
    ensures key in Touch(s, key)
  {}

  // ---- What a saved file looks like from the reader's side ----

  lemma SavedLayout(m: Image, order: seq<Bytes>)
    requires m.global.Shaped() && (forall k | k in order :: k in m.segments)
    ensures var f := Saved(m, order);
      && |f| >= HEADER + GLOBAL_SIZE + 12
      && f[..4] == Le32(MAGIC) && f[4..8] == Le32(3)
      && f[HEADER..HEADER + GLOBAL_SIZE] == GlobalBytes(m.global)
      && f[HEADER + GLOBAL_SIZE..HEADER + GLOBAL_SIZE + 8] == LeBytes(|order|, 8)
      && f[HEADER + GLOBAL_SIZE + 8..] == RecordsBytes(order, m.segments) + f[|f| - 4..]
  {
    hide GlobalBytes, Le32, LeBytes, RecordsBytes, Crc;
    GlobalRoundTrip(m.global);
    var g, n, r := GlobalBytes(m.global), LeBytes(|order|, 8), RecordsBytes(order, m.segments);
    SixParts(Le32(MAGIC), Le32(3), g, n, r, Le32(Crc(Body(m, order), 0)));
  }

  lemma SixParts(u: Bytes, v: Bytes, g: Bytes, n: Bytes, r: Bytes, t: Bytes)
    ensures var f := u + v + g + n + r + t;
      && |f| == |u| + |v| + |g| + |n| + |r| + |t|
      && f[..|u|] == u && f[|u|..|u| + |v|] == v
      && f[|u| + |v|..|u| + |v| + |g|] == g
      && f[|u| + |v| + |g|..|u| + |v| + |g| + |n|] == n
      && f[|u| + |v| + |g| + |n|..] == r + t && f[|f| - |t|..] == t
  {}

  lemma SavedHeader(m: Image, order: seq<Bytes>)
    requires m.global.Shaped() && (forall k | k in order :: k in m.segments)
    ensures var f := Saved(m, order); HeaderOk(f) && Version(f) == 3 && TrailerOk(f)
  {
    hide Crc, Le32, Pack, GlobalBytes, RecordsBytes, LeBytes;
    var f := Saved(m, order);
    SavedLayout(m, order);
    Le32RoundTrip(MAGIC);
    Le32RoundTrip(3);
    var body := Body(m, order);
    Joint(body, Le32(Crc(body, 0)));
    Le32RoundTrip(Crc(body, 0));
  }

  lemma {:induction false} DistinctSize(s: seq<Bytes>)
    requires forall i, j :: 0 <= i < j < |s| ==> s[i] != s[j]
    ensures |set k | k in s| == |s|
    decreases |s|
  {
    if s != [] {
      DistinctSize(s[1..]);
      var others := set k | k in s[1..];
      assert s[0] !in others;
      assert (set k | k in s) == others + {s[0]};
    }
  }

  lemma OrderSize(order: seq<Bytes>, m: Segments)
    requires IterationOrder(order, m)
    ensures |order| == |m|
  {
    DistinctSize(order);
    assert (set k | k in order) == m.Keys;
  }

  /** Loading a saved file in full: every record is restored over what the pipeline held,
      under the kept part of its key. */
  lemma LoadOfSaved(m: Image, order: seq<Bytes>, s: Image)
    requires Wellformed(m) && IterationOrder(order, m.segments)
    ensures Load(Saved(m, order), s)
         == if m.global.LevelsFinite() then (true, Image(m.global, Overlay(order, m.segments, s.segments))) else (false, s)
  {
    hide Crc, Le32, Pack, GlobalBytes, ParseGlobal, RecordsBytes, LoadRecords, LeBytes, LeValue, HeaderOk, TrailerOk;
    var f := Saved(m, order);
    SavedHeader(m, order);
    SavedLayout(m, order);
    GlobalRoundTrip(m.global);
    OrderSize(order, m.segments);
    Le64RoundTrip(|order|);
    RecordsLoad(order, m.segments, f[|f| - 4..], 3, s.segments);
  }

  // ---- Round trip ----

  ghost predicate KeysShort(m: Segments) {
    forall k | k in m :: |k| < 0x10000
  }

  /** The accumulators of m over the instances of s. */
  function Merge(m: Segments, s: Segments): Segments {
    map k | k in m.Keys + s.Keys ::
      if k in m then Segment(m[k].accum, if k in s then s[k].live else 0) else s[k]
  }

  function Part(m: Segments, order: seq<Bytes>): Segments {
    map k | k in m && k in order :: m[k]
  }

  /** Restoring one more key changes the merge at that key only. */
  lemma MergeAt(m: Segments, key: Bytes, rest: seq<Bytes>, s: Segments, k: Bytes)
    requires key in m && key !in rest && key in Touch(s, key)
    ensures var x := Merge(Part(m, rest), Restore(Touch(s, key), key, m[key].accum));
      var y := Merge(Part(m, [key] + rest), s);
      (k in x <==> k in y) && (k in x && k in y ==> x[k] == y[k])
  {
    var s' := Restore(Touch(s, key), key, m[key].accum);
    assert k in [key] + rest <==> k == key || k in rest;
    assert k != key ==> (k in s' <==> k in s) && (k in s ==> s'[k] == s[k]);
    assert s'[key] == Segment(m[key].accum, if key in s then s[key].live else 0);
  }

  lemma MergeStep(m: Segments, key: Bytes, rest: seq<Bytes>, s: Segments)
    requires key in m && key !in rest
    ensures key in Touch(s, key)
    ensures Merge(Part(m, rest), Restore(Touch(s, key), key, m[key].accum)) == Merge(Part(m, [key] + rest), s)
  {
    hide Merge, Part, Restore, Touch;
    TouchHas(s, key);
    var x := Merge(Part(m, rest), Restore(Touch(s, key), key, m[key].accum));
    var y := Merge(Part(m, [key] + rest), s);
    forall k ensures (k in x <==> k in y) && (k in x && k in y ==> x[k] == y[k]) {
      MergeAt(m, key, rest, s, k);
    }
    assert x.Keys == y.Keys;
  }

  lemma {:induction false} OverlayIsMerge(order: seq<Bytes>, m: Segments, s: Segments)
    requires KeysShort(m) && (forall k | k in order :: k in m)
    requires forall i, j :: 0 <= i < j < |order| ==> order[i] != order[j]
    ensures Overlay(order, m, s) == Merge(Part(m, order), s)
    decreases |order|
  {
    if order == [] {
      assert Merge(Part(m, order), s) == s;
    } else {
      hide Merge, Part, Restore, Touch;
      var key := order[0];
      assert KeptKey(key) == key;
      assert key !in order[1..];
      assert order == [key] + order[1..];
      TouchHas(s, key);
      OverlayIsMerge(order[1..], m, Restore(Touch(s, key), key, m[key].accum));
      MergeStep(m, key, order[1..], s);
    }
  }

  /** load_state rebuilds the saved global state and accumulators; instances the pipeline
      already had keep what is not persisted, and their own accumulator if none was saved. */
  lemma RoundTrip(m: Image, order: seq<Bytes>, s: Image)
    requires Wellformed(m) && IterationOrder(order, m.segments)
    requires m.global.LevelsFinite() && KeysShort(m.segments)
    ensures Load(Saved(m, order), s) == (true, Image(m.global, Merge(m.segments, s.segments)))
  {
    hide Load, Saved;
    LoadOfSaved(m, order, s);
    OverlayIsMerge(order, m.segments, s.segments);
    assert Part(m.segments, order) == m.segments;
  }

  const EMPTY_GLOBAL := GlobalState([], [], 0, 0)

  ghost predicate Rebuilds(r: (bool, Image), m: Image) {
    && r.0
    && r.1.global == m.global
    && r.1.segments.Keys == m.segments.Keys
    && (forall k | k in m.segments :: r.1.segments[k].accum == m.segments[k].accum)
  }

  lemma {:induction false} OverlayKeysShort(order: seq<Bytes>, m: Segments, s: Segments)
    requires (forall k | k in order :: k in m) && KeysShort(s)
    ensures KeysShort(Overlay(order, m, s))
    decreases |order|
  {
    if order != [] {
      OverlayKeysShort(order[1..], m, Restore(Touch(s, KeptKey(order[0])), KeptKey(order[0]), m[order[0]].accum));
    }
  }

  /** In a fresh pipeline, exactly the states with finite levels and keys under 65536 bytes
      come back: a longer key is cut to its length modulo 65536. */
  lemma RebuildsExactly(m: Image, order: seq<Bytes>, g: GlobalState)
    requires Wellformed(m) && IterationOrder(order, m.segments)
    ensures Rebuilds(Load(Saved(m, order), Image(g, map[])), m)
       <==> m.global.LevelsFinite() && KeysShort(m.segments)
  {
    hide Load, Saved, Overlay, Merge, Rebuilds, KeysShort;
    LoadOfSaved(m, order, Image(g, map[]));
    NoKeysShort();
    OverlayKeysShort(order, m.segments, map[]);
    if !m.global.LevelsFinite() {
      RefusedIsNoRebuild(m, Image(g, map[]));
    } else if KeysShort(m.segments) {
      RoundTrip(m, order, Image(g, map[]));
      MergeRebuilds(m);
    } else {
      LongKeysAreLost(m, Overlay(order, m.segments, map[]));
    }
  }

  lemma NoKeysShort()
    ensures KeysShort(map[])
  {}

  lemma RefusedIsNoRebuild(m: Image, s: Image)
    ensures !Rebuilds((false, s), m)
  {}

  lemma MergeRebuilds(m: Image)
    ensures Rebuilds((true, Image(m.global, Merge(m.segments, map[]))), m)
  {}

  lemma LongKeysAreLost(m: Image, loaded: Segments)
    requires KeysShort(loaded) && !KeysShort(m.segments)
    ensures !Rebuilds((true, Image(m.global, loaded)), m)
  {}

  // ---- Corruption ----

  /** A version 3 file accepted by its CRC, changed inside four consecutive bytes, is
      refused and leaves the pipeline alone, as long as the version field still says 3. */
  lemma CorruptionRejected(f: Bytes, f': Bytes, k: nat, s: Image)
    requires |f| >= HEADER && Version(f) == 3 && TrailerOk(f)
    requires DifferWithin(f, f', k) && f' != f
    requires Version(f') == 3
    ensures Load(f', s) == (false, s)
  {
    hide Crc, Pack, Feed, Residue, ParseGlobal, LoadRecords, LeValue;
    TrailerIsResidue(f[..|f| - 4], f[|f| - 4..]);
    TrailerIsResidue(f'[..|f'| - 4], f'[|f'| - 4..]);
    assert f[..|f| - 4] + f[|f| - 4..] == f;
    assert f'[..|f'| - 4] + f'[|f'| - 4..] == f';
    FourBytesShow(ONES, f, f', k);
  }

  /** Any change inside four consecutive bytes from offset 8 on, the stored CRC included,
      makes load_state refuse a file that save_state built. */
  lemma SavedFileIsGuarded(m: Image, order: seq<Bytes>, f': Bytes, k: nat, s: Image)
    requires Wellformed(m) && IterationOrder(order, m.segments)
    requires DifferWithin(Saved(m, order), f', k) && k >= HEADER && f' != Saved(m, order)
    ensures Load(f', s) == (false, s)
  {
    hide Load, Saved, TrailerOk, Pack;
    var f := Saved(m, order);
    SavedHeader(m, order);
    assert f'[4..8] == f[4..8];
    CorruptionRejected(f, f', k, s);
  }

  /** A saved file whose version field is overwritten. */
  function Downgraded(m: Image, order: seq<Bytes>, version: bv8): (f: Bytes)
    requires m.global.Shaped() && (forall k | k in order :: k in m.segments)
    ensures |f| == |Saved(m, order)|
  {
    SavedLayout(m, order);
    Saved(m, order)[4 := version]
  }

  /** What the reader sees of it: only the version has changed. */
  lemma DowngradedHead(m: Image, order: seq<Bytes>, version: bv8)
    requires m.global.Shaped() && (forall k | k in order :: k in m.segments) && (version == 1 || version == 2)
    ensures var f := Saved(m, order); var f' := Downgraded(m, order, version);
      HeaderOk(f') && Version(f') == (if version == 1 then 1 else 2) && f' != f
  {
    hide Saved, Downgraded, GlobalBytes, LeBytes, RecordsBytes, HeaderOk, Version, Le32;
    SavedLayout(m, order);
    DowngradedIs(m, order, version);
    DowngradedHeader(Saved(m, order), version);
  }

  lemma DowngradedBody(m: Image, order: seq<Bytes>, version: bv8)
    requires m.global.Shaped() && (forall k | k in order :: k in m.segments)
    ensures var f := Saved(m, order); var f' := Downgraded(m, order, version);
      && |f| == |f'| >= HEADER + GLOBAL_SIZE + 12
      && f'[HEADER..HEADER + GLOBAL_SIZE] == GlobalBytes(m.global)
      && f'[HEADER + GLOBAL_SIZE..HEADER + GLOBAL_SIZE + 8] == LeBytes(|order|, 8)
      && f'[HEADER + GLOBAL_SIZE + 8..] == RecordsBytes(order, m.segments) + f[|f| - 4..]
  {
    hide Saved, Downgraded, GlobalBytes, LeBytes, RecordsBytes, HeaderOk, Version, Le32;
    SavedLayout(m, order);
    DowngradedKeepsBody(m, order, version);
  }

  lemma DowngradedIs(m: Image, order: seq<Bytes>, version: bv8)
    requires m.global.Shaped() && (forall k | k in order :: k in m.segments)
    ensures |Saved(m, order)| > 4 && Downgraded(m, order, version) == Saved(m, order)[4 := version]
  {
    hide Saved;
    SavedLayout(m, order);
  }

  lemma DowngradedKeepsBody(m: Image, order: seq<Bytes>, version: bv8)
    requires m.global.Shaped() && (forall k | k in order :: k in m.segments)
    ensures |Saved(m, order)| >= HEADER && Downgraded(m, order, version)[HEADER..] == Saved(m, order)[HEADER..]
  {
    hide Saved;
    SavedLayout(m, order);
    var f := Saved(m, order);
    assert f[4 := version][HEADER..] == f[HEADER..];
  }

  lemma DowngradedHeader(f: Bytes, version: bv8)
    requires |f| >= HEADER && f[..4] == Le32(MAGIC) && f[4..8] == Le32(3) && (version == 1 || version == 2)
    ensures var f' := f[4 := version];
      HeaderOk(f') && Version(f') == (if version == 1 then 1 else 2) && f' != f
  {
    hide Pack, Le32;
    var f' := f[4 := version];
    VersionBytes();
    Le32RoundTrip(MAGIC);
    Le32RoundTrip(1);
    Le32RoundTrip(2);
    assert f'[..4] == f[..4];
    assert f'[4..8] == [version, 0, 0, 0];
    assert f[4..8][0] == f[4];
    if version == 1 {
      assert f'[4..8] == Le32(1);
    } else {
      assert f'[4..8] == Le32(2);
    }
  }

  lemma VersionBytes()
    ensures Le32(1) == [1, 0, 0, 0] && Le32(2) == [2, 0, 0, 0] && Le32(3) == [3, 0, 0, 0]
  {}

  /** A four-byte window that changes the version field into 1 or 2 and keeps the magic number
      changes nothing else. */
  lemma WindowOverVersion(f: Bytes, f': Bytes, k: nat, version: bv8)
    requires |f| >= HEADER && DifferWithin(f, f', k) && f[4..8] == [3, 0, 0, 0]
    requires f'[..4] == f[..4] && f'[4..8] == [version, 0, 0, 0] && version != 3
    ensures f' == f[4 := version]
  {
    assert f[4] == f[4..8][0] && f'[4] == f'[4..8][0];
    forall i | 0 <= i < |f| && i != 4 ensures f'[i] == f[i] {
      if i < 4 {
        assert f'[..4][i] == f[..4][i];
      } else if i < 8 {
        assert f'[4..8][i - 4] == f[4..8][i - 4];
      }
    }
  }

  /** A file whose header is not that of a saved one, and says no older version, is refused. */
  lemma OtherHeaderRejected(f: Bytes, s: Image)
    requires |f| >= HEADER && (f[..4] != Le32(MAGIC) || (f[4..8] != Le32(1) && f[4..8] != Le32(2) && f[4..8] != Le32(3)))
    ensures Load(f, s) == (false, s)
  {
    hide Pack, Le32;
    Le32Back(f[..4]);
    Le32Back(f[4..8]);
  }

  /** Anywhere in the file, a nonempty change confined to four consecutive bytes is refused
      unless it does nothing but turn the version into 1 or 2. */
  lemma OnlyDowngradesPass(m: Image, order: seq<Bytes>, f': Bytes, k: nat, s: Image)
    requires Wellformed(m) && IterationOrder(order, m.segments)
    requires DifferWithin(Saved(m, order), f', k) && f' != Saved(m, order)
    requires f' != Downgraded(m, order, 1) && f' != Downgraded(m, order, 2)
    ensures Load(f', s) == (false, s)
  {
    hide Load, Saved, TrailerOk, Pack, Le32;
    var f := Saved(m, order);
    SavedHeader(m, order);
    SavedLayout(m, order);
    VersionBytes();
    if f'[..4] != Le32(MAGIC) || (f'[4..8] != Le32(1) && f'[4..8] != Le32(2) && f'[4..8] != Le32(3)) {
      OtherHeaderRejected(f', s);
    } else if f'[4..8] == Le32(3) {
      CorruptionRejected(f, f', k, s);
    } else {
      WindowOverVersion(f, f', k, f'[4..8][0]);
    }
  }

  /** Saying 2 switches the CRC check off, and every saved file altered that way loads as if
      it were intact. */
  lemma VersionTwoIsUnguarded(m: Image, order: seq<Bytes>, s: Image)
    requires Wellformed(m) && IterationOrder(order, m.segments)
    ensures Load(Downgraded(m, order, 2), s) == Load(Saved(m, order), s)
    ensures m.global.LevelsFinite() ==> Load(Saved(m, order), s).0
  {
    hide Crc, GlobalBytes, ParseGlobal, RecordsBytes, LoadRecords, LeBytes, LeValue, TrailerOk, HeaderOk, Pack;
    hide Saved, Downgraded;
    var f := Saved(m, order);
    DowngradedHead(m, order, 2);
    DowngradedBody(m, order, 2);
    LoadOfSaved(m, order, s);
    GlobalRoundTrip(m.global);
    OrderSize(order, m.segments);
    Le64RoundTrip(|order|);
    RecordsLoad(order, m.segments, f[|f| - 4..], 2, s.segments);
  }

  /** Keys are looked up and instances created, but no accumulator is restored. */
  lemma {:induction false} VersionOneTouches(b: Bytes, n: nat, m: Segments)
    ensures var r := LoadRecords(b, n, 1, m).1;
      forall k :: (k in m ==> k in r && r[k] == m[k]) && (k in r && k !in m ==> r[k] == FRESH)
    decreases n
  {
    hide LeValue, ParseAccum;
    if n > 0 && |b| >= 2 && |b| >= 2 + LeValue(b[..2]) {
      var len := LeValue(b[..2]);
      VersionOneTouches(b[2 + len..], n - 1, Touch(m, b[2..2 + len]));
    }
  }

  /** Saying 1 switches the CRC check off too. The saved global state is taken over if its
      levels are finite; of the records only byte strings read as keys remain, each creating
      an empty instance where there was none. Without records the file loads as intact. */
  lemma VersionOneIsUnguarded(m: Image, order: seq<Bytes>, s: Image)
    requires Wellformed(m) && IterationOrder(order, m.segments)
    ensures var r := Load(Downgraded(m, order, 1), s);
      && (!m.global.LevelsFinite() ==> r == (false, s))
      && (m.global.LevelsFinite() ==> r.1.global == m.global)
      && (forall k :: (k in s.segments ==> k in r.1.segments && r.1.segments[k] == s.segments[k])
                      && (k in r.1.segments && k !in s.segments ==> r.1.segments[k] == FRESH))
      && (m.segments == map[] ==> r == Load(Saved(m, order), s))
  {
    hide Crc, GlobalBytes, ParseGlobal, LeBytes, LeValue, TrailerOk, HeaderOk, Pack;
    hide Saved, Downgraded, LoadRecords, RecordsBytes, Overlay;
    var f, f' := Saved(m, order), Downgraded(m, order, 1);
    DowngradedHead(m, order, 1);
    DowngradedBody(m, order, 1);
    LoadOfSaved(m, order, s);
    GlobalRoundTrip(m.global);
    OrderSize(order, m.segments);
    Le64RoundTrip(|order|);
    VersionOneTouches(f'[HEADER + GLOBAL_SIZE + 8..], |order|, s.segments);
    if m.segments == map[] {
      NothingToLoad(order, f'[HEADER + GLOBAL_SIZE + 8..], m.segments, s.segments);
    }
  }

  lemma NothingToLoad(order: seq<Bytes>, b: Bytes, m: Segments, s: Segments)
    requires order == []
    ensures LoadRecords(b, |order|, 1, s) == (true, s) && Overlay(order, m, s) == s
  {}

  /** So, for a state that would be changed by loading the intact file's global state, a change
      inside four consecutive bytes is refused without effect exactly if it is not one of the
      two downgrades. */
  lemma RejectedExactly(m: Image, order: seq<Bytes>, f': Bytes, k: nat, s: Image)
    requires Wellformed(m) && IterationOrder(order, m.segments)
    requires DifferWithin(Saved(m, order), f', k) && f' != Saved(m, order)
    requires m.global.LevelsFinite() && s.global != m.global
    ensures Load(f', s) == (false, s) <==> f' != Downgraded(m, order, 1) && f' != Downgraded(m, order, 2)
  {
    hide Load, Saved, Downgraded;
    if f' == Downgraded(m, order, 1) {
      VersionOneIsUnguarded(m, order, s);
    } else if f' == Downgraded(m, order, 2) {
      VersionTwoIsUnguarded(m, order, s);
    } else {
      OnlyDowngradesPass(m, order, f', k, s);
    }
  }

  // ---- The pipeline's two methods ----

  lemma {:induction false} FlattenSnoc(levels: seq<seq<bv32>>, level: seq<bv32>)
    ensures WordBytes(Flatten(levels + [level])) == WordBytes(Flatten(levels)) + WordBytes(level)
    decreases |levels|
  {
    hide WordBytes;
    if levels == [] {
      assert Flatten([level]) == level + Flatten([level][1..]) == level;
      assert WordBytes([]) == [];
    } else {
      FlattenSnoc(levels[1..], level);
      assert (levels + [level])[1..] == levels[1..] + [level];
      FlatBytesStep(levels + [level]);
      FlatBytesStep(levels);
    }
  }

  lemma {:induction false} RecordsSnoc(order: seq<Bytes>, key: Bytes, m: Segments)
    requires forall k | k in order + [key] :: k in m
    ensures key in order + [key] && (forall k | k in order :: k in order + [key])
    ensures RecordsBytes(order + [key], m) == RecordsBytes(order, m) + RecordBytes(key, m[key].accum)
    decreases |order|
  {
    hide RecordBytes;
    assert (order + [key])[|order|] == key;
    forall k | k in order
      ensures k in order + [key]
    {
      var i :| 0 <= i < |order| && order[i] == k;
      assert (order + [key])[i] == k;
    }
    if order == [] {
      assert RecordsBytes([], m) == [];
    } else {
      assert (order + [key])[1..] == order[1..] + [key];
      RecordsSnoc(order[1..], key, m);
    }
  }

  lemma {:induction false} ParseLevelsSnoc(b: Bytes, c: Bytes, n: nat)
    requires |b| == 4 * STATE_DIM * n && |c| == 4 * STATE_DIM
    ensures ParseLevels(b + c, n + 1) == ParseLevels(b, n) + [BytesWords(c, STATE_DIM)]
    decreases n
  {
    hide BytesWords;
    if n == 0 {
      assert b + c == c && c[..4 * STATE_DIM] == c;
    } else {
      var w := 4 * STATE_DIM;
      assert (b + c)[..w] == b[..w] && (b + c)[w..] == b[w..] + c;
      ParseLevelsSnoc(b[w..], c, n - 1);
    }
  }

  class Pipeline {
    var lastGlobal: GlobalState
    var l1: Segments

    constructor ()
      ensures State() == Image(EMPTY_GLOBAL, map[])
    {
      lastGlobal := EMPTY_GLOBAL;
      l1 := map[];
    }

    ghost function State(): Image
      reads this
    {
      Image(lastGlobal, l1)
    }

    /** Appends field after field to one buffer, walking the hash map in some order. */
    method SaveState(order: seq<Bytes>) returns (buf: Bytes)
      requires IterationOrder(order, l1)
      ensures buf == Saved(State(), order)
    {
      hide Crc, Le32, LeBytes, WordBytes, Flatten, RecordBytes, RecordsBytes;
      var header := Le32(MAGIC) + Le32(3);
      var words: Bytes := [];
      assert WordBytes(Flatten(lastGlobal.levels[..0])) == [] by { NoLevels(); }
      for i := 0 to |lastGlobal.levels|
        invariant words == WordBytes(Flatten(lastGlobal.levels[..i]))
      {
        FlattenSnoc(lastGlobal.levels[..i], lastGlobal.levels[i]);
        assert lastGlobal.levels[..i + 1] == lastGlobal.levels[..i] + [lastGlobal.levels[i]];
        words := words + WordBytes(lastGlobal.levels[i]);
      }
      assert lastGlobal.levels[..|lastGlobal.levels|] == lastGlobal.levels;
      words := words + WordBytes(lastGlobal.baseline);
      words := words + Le32(lastGlobal.anomalyHistory);
      words := words + Le32(lastGlobal.driftScore);
      buf := header + words + LeBytes(|order|, 8);
      ghost var front := buf;
      assert front == HeaderBytes(3) + GlobalBytes(lastGlobal) + LeBytes(|order|, 8);
      assert RecordsBytes(order[..0], l1) == [] by { NoRecordBytes(l1); }
      for i := 0 to |order|
        invariant forall k | k in order[..i] :: k in l1
        invariant buf == front + RecordsBytes(order[..i], l1)
      {
        assert order[..i + 1] == order[..i] + [order[i]];
        RecordsSnoc(order[..i], order[i], l1);
        buf := buf + RecordBytes(order[i], l1[order[i]].accum);
      }
      assert order[..|order|] == order;
      assert buf == Body(State(), order);
      var crc := Crc32Of(buf, 0);
      buf := buf + Le32(crc);
    }

    /** Reads field after field at an advancing position; every early exit returns false and
        keeps what was assigned before it. */
    method LoadState(f: Bytes) returns (ok: bool)
      modifies this
      ensures Load(f, old(State())) == (ok, State())
    {
      hide Crc, Pack, LeValue, BytesWords, ParseLevels, ParseAccum, LoadRecords, AllFinite;
      if |f| < 8 {
        return false;
      }
      var magic, ver := Pack(f[..4]), Pack(f[4..8]);
      if magic != MAGIC || (ver != 1 && ver != 2 && ver != 3) {
        return false;
      }
      if ver >= 3 {
        var crcPos := |f| - 4;
        var computed := Crc32Of(f[..crcPos], 0);
        if Pack(f[crcPos..]) != computed {
          return false;
        }
      }
      var read, gs := ReadGlobal(f);
      if !read {
        return false;
      }
      var pos := HEADER + GLOBAL_SIZE;
      if pos >= |f| - (if ver >= 3 then 4 else 0) {
        return false;
      }
      var finite := AreFinite(gs.levels);
      if !finite {
        return false;
      }
      lastGlobal := gs;
      if pos + 8 > |f| {
        return false;
      }
      var n := LeValue(f[pos..pos + 8]);
      pos := pos + 8;
      ok := LoadInstances(f, pos, n, ver);
    }

    /** The fixed-size part: four level arrays, the baseline, history and drift. */
    method ReadGlobal(f: Bytes) returns (ok: bool, gs: GlobalState)
      requires |f| >= HEADER
      ensures ok == (|f| >= HEADER + GLOBAL_SIZE)
      ensures ok ==> gs == ParseGlobal(f[HEADER..HEADER + GLOBAL_SIZE])
    {
      hide Pack, BytesWords, ParseLevels;
      gs := EMPTY_GLOBAL;
      var pos := 8;
      var levels: seq<seq<bv32>> := [];
      assert f[8..8] == [] && ParseLevels([], 0) == [] by { NoLevels(); }
      for i := 0 to LEVELS
        invariant pos == 8 + 4 * STATE_DIM * i <= |f|
        invariant levels == ParseLevels(f[8..pos], i)
      {
        if pos + 4 * STATE_DIM > |f| {
          return false, gs;
        }
        ParseLevelsSnoc(f[8..pos], f[pos..pos + 4 * STATE_DIM], i);
        assert f[8..pos] + f[pos..pos + 4 * STATE_DIM] == f[8..pos + 4 * STATE_DIM];
        levels := levels + [BytesWords(f[pos..pos + 4 * STATE_DIM], STATE_DIM)];
        pos := pos + 4 * STATE_DIM;
      }
      if pos + 4 * STATE_DIM > |f| || pos + 4 * STATE_DIM + 4 > |f| || pos + 4 * STATE_DIM + 8 > |f| {
        return false, gs;
      }
      var baseline := BytesWords(f[pos..pos + 4 * STATE_DIM], STATE_DIM);
      pos := pos + 4 * STATE_DIM;
      gs := GlobalState(levels, baseline, Pack(f[pos..pos + 4]), Pack(f[pos + 4..pos + 8]));
      BlockParts(f);
      return true, gs;
    }

    method AreFinite(levels: seq<seq<bv32>>) returns (finite: bool)
      ensures finite == (forall i :: 0 <= i < |levels| ==> AllFinite(levels[i]))
    {
      hide AllFinite;
      for i := 0 to |levels|
        invariant forall j :: 0 <= j < i ==> AllFinite(levels[j])
      {
        var ok := WordsFinite(levels[i]);
        if !ok {
          return false;
        }
      }
      return true;
    }

    /** The loop over the num_l1 records. */
    method LoadInstances(f: Bytes, start: nat, n: nat, ver: bv32) returns (ok: bool)
      requires start <= |f|
      modifies `l1
      ensures LoadRecords(f[start..], n, ver, old(l1)) == (ok, l1)
    {
      hide LeValue, ParseAccum, Touch, Restore;
      var pos := start;
      for i := 0 to n
        invariant start <= pos <= |f|
        invariant LoadRecords(f[start..], n, ver, old(l1)) == LoadRecords(f[pos..], n - i, ver, l1)
      {
        if pos + 2 > |f| {
          return false;
        }
        Slices(f, pos, 2);
        var len := LeValue(f[pos..pos + 2]);
        pos := pos + 2;
        if pos + len > |f| {
          return false;
        }
        var key := f[pos..pos + len];
        KeySlices(f, pos - 2, len);
        pos := pos + len;
        TouchHas(l1, key);
        l1 := Touch(l1, key);
        if ver >= 2 {
          if pos + ACCUM_SIZE > |f| {
            return false;
          }
          Slices(f, pos, ACCUM_SIZE);
          l1 := Restore(l1, key, ParseAccum(f[pos..pos + ACCUM_SIZE]));
          pos := pos + ACCUM_SIZE;
        }
      }
      return true;
    }
  }

  lemma Slices(f: Bytes, pos: nat, k: nat)
    requires pos + k <= |f|
    ensures f[pos..][..k] == f[pos..pos + k] && f[pos..][k..] == f[pos + k..]
  {}

  lemma KeySlices(f: Bytes, pos: nat, len: nat)
    requires pos + 2 + len <= |f|
    ensures f[pos..][2..2 + len] == f[pos + 2..pos + 2 + len] && f[pos..][2 + len..] == f[pos + 2 + len..]
  {
    var b := f[pos..];
    Slices(f, pos, 2);
    Slices(f, pos + 2, len);
    Slices(b, 2, len);
  }

  lemma PieceOfPiece(f: Bytes, i: nat, j: nat, a: nat, b: nat)
    requires i <= j <= |f| && a <= b <= j - i
    ensures f[i..j][a..b] == f[i + a..i + b]
  {
    var p, q := f[i..j][a..b], f[i + a..i + b];
    forall k | 0 <= k < |p| ensures p[k] == q[k] {}
    assert p == q;
  }

  lemma BlockParts(f: Bytes)
    requires |f| >= HEADER + GLOBAL_SIZE
    ensures var b := f[HEADER..HEADER + GLOBAL_SIZE];
      && b[..2048] == f[8..2056] && b[2048..2560] == f[2056..2568]
      && b[2560..2564] == f[2568..2572] && b[2564..] == f[2572..2576]
  {
    PieceOfPiece(f, HEADER, HEADER + GLOBAL_SIZE, 0, 2048);
    PieceOfPiece(f, HEADER, HEADER + GLOBAL_SIZE, 2048, 2560);
    PieceOfPiece(f, HEADER, HEADER + GLOBAL_SIZE, 2560, 2564);
    PieceOfPiece(f, HEADER, HEADER + GLOBAL_SIZE, 2564, 2568);
  }

  lemma NoLevels()
    ensures WordBytes(Flatten([])) == [] && ParseLevels([], 0) == []
  {}

  lemma NoRecordBytes(m: Segments)
    ensures RecordsBytes([], m) == []
  {}
}
