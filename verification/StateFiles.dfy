/** Which byte strings load_state accepts, and what it makes of the ones it does not. */
module StateFiles {
  import opened Crc32
  import opened LittleEndian
  import opened StateCodec

  // ---- Writing undoes reading ----

  lemma DigitParts(on: bool, v: nat)
    ensures Odd(Digit(on, v)) == on && LittleEndian.Half(Digit(on, v)) == v
  {}

  lemma FlagsMakeByte(b: bv8)
    ensures FromFlags(Has(b, 1), Has(b, 2), Has(b, 4), Has(b, 8), Has(b, 16), Has(b, 32), Has(b, 64), Has(b, 128)) == b
  {}

  lemma ByteForth(b: bv8)
    ensures ByteOf(ValueOf(b)) == b
  {
    hide FromFlags, Odd, LittleEndian.Half, Has, Digit;
    FlagsMakeByte(b);
    var v7 := Digit(Has(b, 128), 0);
    var v6 := Digit(Has(b, 64), v7);
    var v5 := Digit(Has(b, 32), v6);
    var v4 := Digit(Has(b, 16), v5);
    var v3 := Digit(Has(b, 8), v4);
    var v2 := Digit(Has(b, 4), v3);
    var v1 := Digit(Has(b, 2), v2);
    DigitParts(Has(b, 1), v1);
    DigitParts(Has(b, 2), v2);
    DigitParts(Has(b, 4), v3);
    DigitParts(Has(b, 8), v4);
    DigitParts(Has(b, 16), v5);
    DigitParts(Has(b, 32), v6);
    DigitParts(Has(b, 64), v7);
    DigitParts(Has(b, 128), 0);
  }

  lemma LowAndHigh(v: nat, w: nat)
    requires v < 256
    ensures (v + 256 * w) % 256 == v && (v + 256 * w) / 256 == w
  {}

  lemma {:induction false} LeForth(s: Bytes)
    ensures LeBytes(LeValue(s), |s|) == s
    decreases |s|
  {
    hide *;
    if s == [] {
      NoNumber();
    } else {
      ValueIsSmall(s[0]);
      NumberStep(s);
      BytesOfSum(ValueOf(s[0]), LeValue(s[1..]), |s| - 1);
      ByteForth(s[0]);
      LeForth(s[1..]);
      assert s == [s[0]] + s[1..];
    }
  }

  lemma NoNumber()
    ensures LeBytes(LeValue([]), 0) == []
  {}

  lemma NumberStep(s: Bytes)
    requires s != []
    ensures LeValue(s) == ValueOf(s[0]) + 256 * LeValue(s[1..])
  {
    hide ValueOf;
  }

  lemma BytesOfSum(v: nat, w: nat, n: nat)
    requires v < 256
    ensures LeBytes(v + 256 * w, n + 1) == [ByteOf(v)] + LeBytes(w, n)
  {
    hide ByteOf;
    LowAndHigh(v, w);
  }

  lemma AccumForth(b: Bytes)
    requires |b| == ACCUM_SIZE
    ensures AccumBytes(ParseAccum(b)) == b
  {
    hide WordBytes, BytesWords, Le32, Pack, LeBytes, LeValue;
    LeForth(b[..8]);
    LeForth(b[8..16]);
    Le32Back(b[16..20]);
    Le32Back(b[20..24]);
    LeForth(b[24..32]);
    WordsBack(b[32..], 8);
    assert b == b[..8] + b[8..16] + b[16..20] + b[20..24] + b[24..32] + b[32..];
  }

  // ---- Records ----

  datatype Entry = Entry(key: Bytes, accum: Accum)

  /** The bytes of these records. */
  function Written(es: seq<Entry>): Bytes
    decreases |es|
  {
    if es == [] then [] else RecordBytes(es[0].key, es[0].accum) + Written(es[1..])
  }

  ghost predicate Sound(es: seq<Entry>) {
    forall i :: 0 <= i < |es| ==> |es[i].key| < 0x10000 && es[i].accum.Shaped()
  }

  /** Restoring them one after the other. */
  function RestoreAll(es: seq<Entry>, s: Segments): Segments
    decreases |es|
  {
    if es == [] then s else RestoreAll(es[1..], Restore(Touch(s, es[0].key), es[0].key, es[0].accum))
  }

  /** b begins with these records. */
  ghost predicate Begins(b: Bytes, n: nat, es: seq<Entry>) {
    |es| == n && Sound(es) && |Written(es)| <= |b| && b[..|Written(es)|] == Written(es)
  }

  lemma {:induction false} WrittenLoads(es: seq<Entry>, rest: Bytes, version: bv32, s: Segments)
    requires Sound(es) && version >= 2
    ensures LoadRecords(Written(es) + rest, |es|, version, s) == (true, RestoreAll(es, s))
    decreases |es|
  {
    hide RecordBytes, LoadRecords, Touch, Restore;
    if es == [] {
      NoRecords(rest, version, s);
      assert Written(es) + rest == rest;
    } else {
      var e := es[0];
      var others := Written(es[1..]) + rest;
      assert Written(es) + rest == RecordBytes(e.key, e.accum) + others;
      assert KeptKey(e.key) == e.key;
      RecordLoads(e.key, e.accum, others, |es[1..]|, version, s);
      TouchHas(s, e.key);
      WrittenLoads(es[1..], rest, version, Restore(Touch(s, e.key), e.key, e.accum));
    }
  }

  /** What the first record of an accepted block is, if there is one. */
  lemma FirstEntry(b: Bytes, n: nat, version: bv32, s: Segments) returns (e: Entry, rest: Bytes)
    requires n > 0 && version >= 2 && LoadRecords(b, n, version, s).0
    ensures |e.key| < 0x10000 && e.accum.Shaped() && b == RecordBytes(e.key, e.accum) + rest
    ensures e.key in Touch(s, e.key)
    ensures LoadRecords(b, n, version, s) == LoadRecords(rest, n - 1, version, Restore(Touch(s, e.key), e.key, e.accum))
  {
    hide LeValue, LeBytes, ParseAccum, AccumBytes, Touch, Restore;
    var len := LeValue(b[..2]);
    var tail := b[2 + len..];
    e, rest := Entry(b[2..2 + len], ParseAccum(tail[..ACCUM_SIZE])), tail[ACCUM_SIZE..];
    LeValueBound(b[..2]);
    Powers();
    LeForth(b[..2]);
    AccumForth(tail[..ACCUM_SIZE]);
    assert KeptKey(e.key) == e.key;
    TouchHas(s, e.key);
    assert b == b[..2] + b[2..2 + len] + (tail[..ACCUM_SIZE] + rest);
  }

  lemma {:induction false} LoadedIsWritten(b: Bytes, n: nat, version: bv32, s: Segments) returns (es: seq<Entry>)
    requires version >= 2 && LoadRecords(b, n, version, s).0
    ensures Begins(b, n, es)
    decreases n
  {
    hide LoadRecords, RecordBytes, Touch, Restore;
    if n == 0 {
      es := [];
    } else {
      var e, rest := FirstEntry(b, n, version, s);
      var others := LoadedIsWritten(rest, n - 1, version, Restore(Touch(s, e.key), e.key, e.accum));
      es := [e] + others;
      assert es[1..] == others;
      BeginsAppend(e, others, rest);
    }
  }

  lemma BeginsAppend(e: Entry, others: seq<Entry>, rest: Bytes)
    requires |Written(others)| <= |rest| && rest[..|Written(others)|] == Written(others)
    ensures var b, w := RecordBytes(e.key, e.accum) + rest, RecordBytes(e.key, e.accum) + Written(others);
      |w| <= |b| && b[..|w|] == w
  {
    hide RecordBytes;
  }

  /** A block of records is accepted exactly if it begins with that many records as save_state
      writes them, and then they are restored one after the other. */
  lemma RecordsAcceptedExactly(b: Bytes, n: nat, version: bv32, s: Segments)
    requires version >= 2
    ensures LoadRecords(b, n, version, s).0 <==> exists es :: Begins(b, n, es)
    ensures forall es :: Begins(b, n, es) ==> LoadRecords(b, n, version, s) == (true, RestoreAll(es, s))
  {
    hide LoadRecords, RestoreAll;
    forall es | Begins(b, n, es) ensures LoadRecords(b, n, version, s) == (true, RestoreAll(es, s)) {
      assert b == Written(es) + b[|Written(es)|..];
      WrittenLoads(es, b[|Written(es)|..], version, s);
    }
    if LoadRecords(b, n, version, s).0 {
      var es := LoadedIsWritten(b, n, version, s);
    }
  }

  /** A file that says version 2 or 3 is accepted exactly if it has the magic number, in version
      3 the right CRC, more than the global state before the trailer, finite levels, the count
      of records and that many records; what follows them is not looked at. */
  lemma AcceptedExactly(f: Bytes, s: Image)
    requires |f| >= 8 && (Pack(f[4..8]) == 2 || Pack(f[4..8]) == 3)
    ensures Load(f, s).0 <==>
      && Pack(f[..4]) == 0x49445332
      && (Pack(f[4..8]) == 3 ==> Pack(f[|f| - 4..]) == Crc(f[..|f| - 4], 0))
      && |f| >= 2584
      && ParseGlobal(f[8..2576]).LevelsFinite()
      && exists es :: Begins(f[2584..], LeValue(f[2576..2584]), es)
  {
    hide Crc, ParseGlobal, LoadRecords, LeValue, Pack, Begins;
    if |f| >= 2584 {
      LongFile(f, s);
      RecordsAcceptedExactly(f[2584..], LeValue(f[2576..2584]), Pack(f[4..8]), s.segments);
    }
  }

  lemma LongFile(f: Bytes, s: Image)
    requires |f| >= 2584 && (Pack(f[4..8]) == 2 || Pack(f[4..8]) == 3)
    ensures Load(f, s).0 <==>
      && Pack(f[..4]) == 0x49445332
      && (Pack(f[4..8]) == 3 ==> Pack(f[|f| - 4..]) == Crc(f[..|f| - 4], 0))
      && ParseGlobal(f[8..2576]).LevelsFinite()
      && LoadRecords(f[2584..], LeValue(f[2576..2584]), Pack(f[4..8]), s.segments).0
  {
    hide Crc, ParseGlobal, LoadRecords, LeValue, Pack;
    assert HEADER + GLOBAL_SIZE == 2576;
  }

  /** Nothing but the global state and the instances' accumulators ever changes, and a refused
      file leaves the global state alone unless its fixed part was in order. */
  lemma RefusedLeaves(f: Bytes, s: Image)
    requires !Load(f, s).0
    ensures |f| < 2576 || !ParseGlobal(f[8..2576]).LevelsFinite() || Pack(f[..4]) != 0x49445332 ==> Load(f, s).1 == s
    ensures Load(f, s).1.global == s.global || (|f| >= 2576 && Load(f, s).1.global == ParseGlobal(f[8..2576]))
  {
    hide Crc, ParseGlobal, LoadRecords, LeValue, Pack;
  }
}
