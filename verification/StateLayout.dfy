/** Where every field of a saved state file lies, as numbers at byte offsets. */
module StateLayout {
  import opened Crc32
  import opened LittleEndian
  import opened StateCodec

  // ---- Numbers ----

  /** The values of the 256 bytes are 0 to 255, in order. */
  lemma BytesCount(b: bv8)
    ensures ValueOf(0) == 0 && (b != 0xFF ==> ValueOf(b + 1) == ValueOf(b) + 1)
  {
    Carry(b);
    hide Has;
  }

  lemma Carry(b: bv8)
    ensures !Has(0, 1) && !Has(0, 2) && !Has(0, 4) && !Has(0, 8) && !Has(0, 16) && !Has(0, 32) && !Has(0, 64) && !Has(0, 128)
    ensures b != 0xFF ==> !(Has(b, 1) && Has(b, 2) && Has(b, 4) && Has(b, 8) && Has(b, 16) && Has(b, 32) && Has(b, 64) && Has(b, 128))
    ensures Has(b + 1, 1) != Has(b, 1)
    ensures (Has(b + 1, 2) != Has(b, 2)) == Has(b, 1)
    ensures (Has(b + 1, 4) != Has(b, 4)) == (Has(b, 1) && Has(b, 2))
    ensures (Has(b + 1, 8) != Has(b, 8)) == (Has(b, 1) && Has(b, 2) && Has(b, 4))
    ensures (Has(b + 1, 16) != Has(b, 16)) == (Has(b, 1) && Has(b, 2) && Has(b, 4) && Has(b, 8))
    ensures (Has(b + 1, 32) != Has(b, 32)) == (Has(b, 1) && Has(b, 2) && Has(b, 4) && Has(b, 8) && Has(b, 16))
    ensures (Has(b + 1, 64) != Has(b, 64))
         == (Has(b, 1) && Has(b, 2) && Has(b, 4) && Has(b, 8) && Has(b, 16) && Has(b, 32))
    ensures (Has(b + 1, 128) != Has(b, 128))
         == (Has(b, 1) && Has(b, 2) && Has(b, 4) && Has(b, 8) && Has(b, 16) && Has(b, 32) && Has(b, 64))
  {}

  /** A 32-bit word is written from its lowest byte to its highest. */
  lemma WordByBytes(w: bv32)
    ensures Le32(w) == [(w & 0xFF) as bv8, ((w >> 8) & 0xFF) as bv8, ((w >> 16) & 0xFF) as bv8, ((w >> 24) & 0xFF) as bv8]
  {}

  /** Byte k of a number has weight 256^k. */
  lemma {:induction false} NumberByBytes(s: Bytes, k: nat)
    requires k < |s|
    ensures LeValue(s) == LeValue(s[..k]) + Power256(k) * (ValueOf(s[k]) + 256 * LeValue(s[k + 1..]))
    decreases k
  {
    hide ValueOf;
    if k == 0 {
      assert s[..0] == [];
    } else {
      NumberByBytes(s[1..], k - 1);
      assert s[..k][1..] == s[1..][..k - 1] && s[1..][k..] == s[k + 1..];
      Shifted(Power256(k - 1), ValueOf(s[k]) + 256 * LeValue(s[k + 1..]));
    }
  }

  lemma Shifted(p: nat, x: nat)
    ensures 256 * (p * x) == (256 * p) * x
  {}

  /** The exponent of an IEEE 754 single precision number, all ones for infinities and NaNs. */
  function Exponent(w: bv32): bv32 {
    (w >> 23) & 0xFF
  }

  lemma FiniteExponent(w: bv32)
    ensures Finite(w) <==> Exponent(w) != 0xFF
  {}

  /** A global state is finite if every entry of every level is. */
  lemma LevelsFiniteExactly(g: GlobalState)
    requires g.Shaped()
    ensures g.LevelsFinite() <==> forall l, i :: 0 <= l < 4 && 0 <= i < 128 ==> Exponent(g.levels[l][i]) != 0xFF
  {
    hide Finite, Exponent;
    forall l, i | 0 <= l < 4 && 0 <= i < 128 ensures Finite(g.levels[l][i]) <==> Exponent(g.levels[l][i]) != 0xFF {
      FiniteExponent(g.levels[l][i]);
    }
    if forall l, i :: 0 <= l < 4 && 0 <= i < 128 ==> Exponent(g.levels[l][i]) != 0xFF {
      forall l | 0 <= l < 4 ensures AllFinite(g.levels[l]) {}
    } else {
      var l, i :| 0 <= l < 4 && 0 <= i < 128 && Exponent(g.levels[l][i]) == 0xFF;
      assert !AllFinite(g.levels[l]);
    }
  }

  // ---- One accumulator ----

  /** b holds the fields of a from offset p on. */
  ghost predicate FieldsAt(b: Bytes, p: nat, a: Accum)
    requires p + 64 <= |b| && |a.typeFreq| == 8
  {
    && LeValue(b[p..p + 8]) == a.segmentCount
    && LeValue(b[p + 8..p + 16]) == a.count
    && Pack(b[p + 16..p + 20]) == a.scoreAcc
    && Pack(b[p + 20..p + 24]) == a.rateAcc
    && LeValue(b[p + 24..p + 32]) == a.errorCount
    && forall k :: 0 <= k < 8 ==> Pack(b[p + 32 + 4 * k..p + 36 + 4 * k]) == a.typeFreq[k]
  }

  /** The words of an array lie four bytes apart. */
  lemma {:induction false} WordsAt(ws: seq<bv32>, k: nat)
    requires k < |ws|
    ensures Pack(WordBytes(ws)[4 * k..4 * k + 4]) == ws[k]
    decreases k
  {
    hide Pack, Le32;
    var b := WordBytes(ws);
    Le32RoundTrip(ws[0]);
    if k == 0 {
      assert b[0..4] == Le32(ws[0]);
    } else {
      WordsAt(ws[1..], k - 1);
      assert b[4 * k..4 * k + 4] == WordBytes(ws[1..])[4 * (k - 1)..4 * (k - 1) + 4];
    }
  }

  lemma AccumFields(a: Accum)
    requires a.Shaped()
    ensures |AccumBytes(a)| == 64 && FieldsAt(AccumBytes(a), 0, a)
  {
    hide WordBytes, Le32, Pack, LeBytes, LeValue;
    var b := AccumBytes(a);
    Le64RoundTrip(a.segmentCount);
    Le64RoundTrip(a.count);
    Le64RoundTrip(a.errorCount);
    Le32RoundTrip(a.scoreAcc);
    Le32RoundTrip(a.rateAcc);
    assert b[0..8] == LeBytes(a.segmentCount, 8) && b[8..16] == LeBytes(a.count, 8);
    assert b[16..20] == Le32(a.scoreAcc) && b[20..24] == Le32(a.rateAcc) && b[24..32] == LeBytes(a.errorCount, 8);
    assert b[32..64] == WordBytes(a.typeFreq);
    forall k | 0 <= k < 8 ensures Pack(b[32 + 4 * k..36 + 4 * k]) == a.typeFreq[k] {
      WordsAt(a.typeFreq, k);
      PieceOfPiece(b, 32, 64, 4 * k, 4 * k + 4);
    }
  }

  /** Fields move with the bytes that hold them. */
  lemma FieldsMove(b: Bytes, f: Bytes, p: nat, a: Accum)
    requires |b| == 64 && |a.typeFreq| == 8 && FieldsAt(b, 0, a) && p + 64 <= |f| && f[p..p + 64] == b
    ensures FieldsAt(f, p, a)
  {
    hide Pack, LeValue;
    PieceOfPiece(f, p, p + 64, 0, 8);
    PieceOfPiece(f, p, p + 64, 8, 16);
    PieceOfPiece(f, p, p + 64, 16, 20);
    PieceOfPiece(f, p, p + 64, 20, 24);
    PieceOfPiece(f, p, p + 64, 24, 32);
    forall k | 0 <= k < 8 ensures Pack(f[p + 32 + 4 * k..p + 36 + 4 * k]) == a.typeFreq[k] {
      PieceOfPiece(f, p, p + 64, 32 + 4 * k, 36 + 4 * k);
    }
  }

  // ---- The header and the global state ----

  lemma {:induction false} LevelAt(levels: seq<seq<bv32>>, l: nat, i: nat)
    requires (forall k :: 0 <= k < |levels| ==> |levels[k]| == STATE_DIM) && l < |levels| && i < STATE_DIM
    ensures |Flatten(levels)| == STATE_DIM * |levels| && Flatten(levels)[STATE_DIM * l + i] == levels[l][i]
    decreases l
  {
    FlattenSize(levels);
    if l > 0 {
      LevelAt(levels[1..], l - 1, i);
    }
  }

  /** b holds the global state g from offset p on. */
  ghost predicate GlobalAt(b: Bytes, p: nat, g: GlobalState)
    requires p + 2568 <= |b| && g.Shaped()
  {
    && (forall l, i :: 0 <= l < 4 && 0 <= i < 128 ==>
          Pack(b[p + 512 * l + 4 * i..p + 512 * l + 4 * i + 4]) == g.levels[l][i])
    && (forall i :: 0 <= i < 128 ==> Pack(b[p + 2048 + 4 * i..p + 2052 + 4 * i]) == g.baseline[i])
    && Pack(b[p + 2560..p + 2564]) == g.anomalyHistory
    && Pack(b[p + 2564..p + 2568]) == g.driftScore
  }

  lemma GlobalFields(g: GlobalState)
    requires g.Shaped()
    ensures |GlobalBytes(g)| == 2568 && GlobalAt(GlobalBytes(g), 0, g)
  {
    hide WordBytes, Le32, Pack, Flatten;
    var b := GlobalBytes(g);
    FlattenSize(g.levels);
    Le32RoundTrip(g.anomalyHistory);
    Le32RoundTrip(g.driftScore);
    var levels := Flatten(g.levels);
    var first, second := WordBytes(levels), WordBytes(g.baseline);
    ThreeParts(first, second, Le32(g.anomalyHistory) + Le32(g.driftScore));
    assert b == first + second + (Le32(g.anomalyHistory) + Le32(g.driftScore));
    assert b[0..2048] == first && b[2048..2560] == second;
    assert b[2560..2564] == Le32(g.anomalyHistory) && b[2564..2568] == Le32(g.driftScore);
    forall l, i | 0 <= l < 4 && 0 <= i < 128
      ensures Pack(b[512 * l + 4 * i..512 * l + 4 * i + 4]) == g.levels[l][i]
    {
      LevelAt(g.levels, l, i);
      WordsAt(levels, 128 * l + i);
      PieceOfPiece(b, 0, 2048, 512 * l + 4 * i, 512 * l + 4 * i + 4);
    }
    forall i | 0 <= i < 128 ensures Pack(b[2048 + 4 * i..2052 + 4 * i]) == g.baseline[i] {
      WordsAt(g.baseline, i);
      PieceOfPiece(b, 2048, 2560, 4 * i, 4 * i + 4);
    }
  }

  lemma GlobalMoves(b: Bytes, f: Bytes, p: nat, g: GlobalState)
    requires |b| == 2568 && g.Shaped() && GlobalAt(b, 0, g) && p + 2568 <= |f| && f[p..p + 2568] == b
    ensures GlobalAt(f, p, g)
  {
    hide Pack;
    forall l, i | 0 <= l < 4 && 0 <= i < 128
      ensures Pack(f[p + 512 * l + 4 * i..p + 512 * l + 4 * i + 4]) == g.levels[l][i]
    {
      assert Pack(b[0 + 512 * l + 4 * i..0 + 512 * l + 4 * i + 4]) == g.levels[l][i];
      PieceOfPiece(f, p, p + 2568, 512 * l + 4 * i, 512 * l + 4 * i + 4);
    }
    forall i | 0 <= i < 128 ensures Pack(f[p + 2048 + 4 * i..p + 2052 + 4 * i]) == g.baseline[i] {
      assert Pack(b[0 + 2048 + 4 * i..0 + 2052 + 4 * i]) == g.baseline[i];
      PieceOfPiece(f, p, p + 2568, 2048 + 4 * i, 2052 + 4 * i);
    }
    PieceOfPiece(f, p, p + 2568, 2560, 2564);
    PieceOfPiece(f, p, p + 2568, 2564, 2568);
  }

  /** The fixed part of every saved file, and its last four bytes. */
  lemma SavedFields(m: Image, order: seq<Bytes>)
    requires Wellformed(m) && IterationOrder(order, m.segments)
    ensures var f := Saved(m, order);
      && |f| >= 2588
      && Pack(f[0..4]) == 0x49445332 && Pack(f[4..8]) == 3
      && GlobalAt(f, 8, m.global)
      && LeValue(f[2576..2584]) == |m.segments|
      && Pack(f[|f| - 4..]) == Crc(f[..|f| - 4], 0)
  {
    hide GlobalBytes, Le32, Pack, LeBytes, LeValue, RecordsBytes, Crc, Saved, GlobalAt;
    var f := Saved(m, order);
    SavedLayout(m, order);
    SavedHeader(m, order);
    GlobalFields(m.global);
    OrderSize(order, m.segments);
    Le64RoundTrip(|order|);
    Le32RoundTrip(MAGIC);
    Le32RoundTrip(3);
    assert f[0..4] == f[..4];
    GlobalMoves(GlobalBytes(m.global), f, 8, m.global);
  }

  // ---- The records ----

  /** Where record n begins. */
  function RecordAt(order: seq<Bytes>, n: nat): (p: nat)
    requires n <= |order|
    ensures p >= 2584
    decreases n
  {
    if n == 0 then 2584 else RecordAt(order, n - 1) + 2 + |order[n - 1]| % 0x10000 + 64
  }

  /** b is record n of the file, and what follows. */
  ghost predicate RecordIn(m: Segments, key: Bytes, f: Bytes, p: nat)
    requires key in m && m[key].accum.Shaped()
  {
    var len := |key| % 0x10000;
    && p + 66 + len <= |f|
    && LeValue(f[p..p + 2]) == len
    && f[p + 2..p + 2 + len] == key[..len]
    && FieldsAt(f, p + 2 + len, m[key].accum)
  }

  lemma {:induction false} RecordsAt(order: seq<Bytes>, m: Segments, f: Bytes, n: nat)
    requires (forall k | k in order :: k in m && m[k].accum.Shaped()) && n <= |order|
    requires |f| >= 2588 && f[2584..] == RecordsBytes(order, m) + f[|f| - 4..]
    ensures RecordAt(order, n) <= |f| - 4
    ensures f[RecordAt(order, n)..] == RecordsBytes(order[n..], m) + f[|f| - 4..]
    ensures n < |order| ==> RecordIn(m, order[n], f, RecordAt(order, n))
    decreases n
  {
    hide RecordBytes, RecordsBytes, FieldsAt, LeValue, RecordIn;
    if n == 0 {
      assert order[0..] == order;
    } else {
      RecordsAt(order, m, f, n - 1);
      RecordEnds(order, m, f, n - 1);
    }
    if n < |order| {
      RecordHere(order, m, f, n);
    }
  }

  lemma OneRecord(order: seq<Bytes>, m: Segments, n: nat)
    requires (forall k | k in order :: k in m) && n < |order|
    ensures RecordsBytes(order[n..], m) == RecordBytes(order[n], m[order[n]].accum) + RecordsBytes(order[n + 1..], m)
  {
    hide RecordBytes;
    assert order[n..][0] == order[n] && order[n..][1..] == order[n + 1..];
  }

  lemma RecordEnds(order: seq<Bytes>, m: Segments, f: Bytes, n: nat)
    requires (forall k | k in order :: k in m && m[k].accum.Shaped()) && n < |order| && |f| >= 4
    requires RecordAt(order, n) <= |f| && f[RecordAt(order, n)..] == RecordsBytes(order[n..], m) + f[|f| - 4..]
    ensures RecordAt(order, n + 1) <= |f| - 4
    ensures f[RecordAt(order, n + 1)..] == RecordsBytes(order[n + 1..], m) + f[|f| - 4..]
  {
    hide LeBytes, AccumBytes, RecordsBytes, RecordBytes;
    var key, p := order[n], RecordAt(order, n);
    var r, rest := RecordBytes(key, m[key].accum), RecordsBytes(order[n + 1..], m);
    OneRecord(order, m, n);
    RecordSize(key, m[key].accum);
    Joint(r, rest + f[|f| - 4..]);
    assert f[p..] == r + (rest + f[|f| - 4..]);
    assert f[p + |r|..] == f[p..][|r|..];
  }

  lemma RecordSize(key: Bytes, a: Accum)
    requires a.Shaped()
    ensures |RecordBytes(key, a)| == 66 + |key| % 0x10000
  {
    hide AccumBytes, LeBytes;
    AccumFields(a);
  }

  lemma RecordHere(order: seq<Bytes>, m: Segments, f: Bytes, n: nat)
    requires (forall k | k in order :: k in m && m[k].accum.Shaped()) && n < |order| && |f| >= 4
    requires RecordAt(order, n) <= |f| && f[RecordAt(order, n)..] == RecordsBytes(order[n..], m) + f[|f| - 4..]
    ensures RecordIn(m, order[n], f, RecordAt(order, n))
  {
    hide LeBytes, LeValue, AccumBytes, RecordsBytes, RecordBytes, FieldsAt, RecordAt;
    var key, p := order[n], RecordAt(order, n);
    var a, others := m[key].accum, RecordsBytes(order[n + 1..], m) + f[|f| - 4..];
    var len := |key| % 0x10000;
    OneRecord(order, m, n);
    assert f[p..] == RecordBytes(key, a) + others;
    RecordLayout(key, a, others);
    AccumFields(a);
    var b := f[p..];
    assert f[p..p + 2] == b[..2] && f[p + 2..p + 2 + len] == b[2..2 + len];
    assert b[2 + len..] == f[p + 2 + len..];
    assert f[p + 2 + len..p + 2 + len + 64] == b[2 + len..][..64];
    Joint(AccumBytes(a), others);
    FieldsMove(AccumBytes(a), f, p + 2 + len, a);
  }

  /** Every record of every saved file lies where the records before it end, as the length of
      its key, that many bytes of the key and the accumulator's fields; the last one ends where
      the CRC begins. */
  lemma SavedRecords(m: Image, order: seq<Bytes>, n: nat)
    requires Wellformed(m) && IterationOrder(order, m.segments) && n <= |order|
    ensures RecordAt(order, |order|) == |Saved(m, order)| - 4
    ensures n < |order| ==> RecordIn(m.segments, order[n], Saved(m, order), RecordAt(order, n))
  {
    hide Saved, RecordsBytes, RecordIn, LeBytes, Le32, GlobalBytes, RecordAt;
    var f := Saved(m, order);
    SavedLayout(m, order);
    RecordsAt(order, m.segments, f, n);
    RecordsAt(order, m.segments, f, |order|);
    NoBytes(order, m.segments);
    assert |f[RecordAt(order, |order|)..]| == 4;
  }

  lemma NoBytes(order: seq<Bytes>, m: Segments)
    requires forall k | k in order :: k in m
    ensures RecordsBytes(order[|order|..], m) == []
  {}
}
