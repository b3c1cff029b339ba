/** save_model / load_model / validate_model of include/ids_model.hpp, over the bytes of
    the model file. */
module ModelCodec {
  import opened Folds
  import opened Crc32
  import opened LittleEndian
  import opened Fnv

  datatype Option<+T> = None | Some(value: T)

  const MODEL_MAGIC: bv32 := 0x4D444C32
  const SDIM := 32
  const EDIM := 64
  const BLOB_WORDS := SDIM + SDIM * SDIM + SDIM * SDIM + SDIM + SDIM * SDIM
  const MAX_L2_LAYERS := 64

  // Bytes of the five L1 arrays together, and of one L2 blob.
  const L1_SIZE := 4 * (SDIM + SDIM * EDIM + SDIM * SDIM + SDIM + SDIM * EDIM)
  const BLOB_SIZE := 4 * BLOB_WORDS

  datatype ModelParams = ModelParams(
    version: Bytes, checksum: Bytes, trainedAt: U64,
    l1A: seq<bv32>, l1B: seq<bv32>, l1C: seq<bv32>, l1D: seq<bv32>, l1Delta: seq<bv32>,
    l2: seq<seq<bv32>>)
  {
    predicate WellSized() {
      && |l1A| == SDIM && |l1B| == SDIM * EDIM && |l1C| == SDIM * SDIM && |l1D| == SDIM
      && |l1Delta| == SDIM * EDIM
      && (forall i :: 0 <= i < |l2| ==> |l2[i]| == BLOB_WORDS)
    }

    predicate AllWordsFinite() {
      && AllFinite(l1A) && AllFinite(l1B) && AllFinite(l1C) && AllFinite(l1D) && AllFinite(l1Delta)
      && (forall i :: 0 <= i < |l2| ==> AllFinite(l2[i]))
    }
  }

  // ---- Checksum and validation ----

  function L1Bytes(m: ModelParams): Bytes {
    WordBytes(m.l1A) + WordBytes(m.l1B) + WordBytes(m.l1C) + WordBytes(m.l1D) + WordBytes(m.l1Delta)
  }

  function BlobsBytes(blobs: seq<seq<bv32>>): Bytes
    decreases |blobs|
  {
    if blobs == [] then [] else WordBytes(blobs[0]) + BlobsBytes(blobs[1..])
  }

  function Checksum(m: ModelParams): (text: Bytes)
    ensures 1 <= |text| <= 16
  {
    Hex(Hash(L1Bytes(m) + BlobsBytes(m.l2)))
  }

  predicate Valid(m: ModelParams) {
    && m.version != [] && m.l1A != []
    && m.AllWordsFinite()
    && m.WellSized()
    && (m.checksum == [] || Checksum(m) == m.checksum)
  }

  method Mix(h: bv64, data: Bytes) returns (r: bv64)
    ensures r == Fold(MixByte, h, data)
  {
    r := h;
    for i := 0 to |data|
      invariant r == Fold(MixByte, h, data[..i])
    {
      FoldSnoc(MixByte, h, data[..i], data[i]);
      assert data[..i + 1] == data[..i] + [data[i]];
      r := MixByte(r, data[i]);
    }
    assert data[..|data|] == data;
  }

  lemma {:induction false} BlobsSnoc(blobs: seq<seq<bv32>>, blob: seq<bv32>)
    ensures BlobsBytes(blobs + [blob]) == BlobsBytes(blobs) + WordBytes(blob)
    decreases |blobs|
  {
    hide WordBytes;
    if blobs != [] {
      assert (blobs + [blob])[1..] == blobs[1..] + [blob];
      BlobsSnoc(blobs[1..], blob);
    } else {
      assert ([blob])[1..] == [];
    }
  }

  method ComputeChecksum(m: ModelParams) returns (text: Bytes)
    ensures text == Checksum(m)
  {
    hide MixByte, WordBytes, Hex, Fold, BlobsBytes;
    var h := OFFSET_BASIS;
    var d1, d2, d3, d4, d5 := WordBytes(m.l1A), WordBytes(m.l1B), WordBytes(m.l1C), WordBytes(m.l1D), WordBytes(m.l1Delta);
    h := Mix(h, d1);
    h := Mix(h, d2);
    FoldConcat(MixByte, OFFSET_BASIS, d1, d2);
    h := Mix(h, d3);
    FoldConcat(MixByte, OFFSET_BASIS, d1 + d2, d3);
    h := Mix(h, d4);
    FoldConcat(MixByte, OFFSET_BASIS, d1 + d2 + d3, d4);
    h := Mix(h, d5);
    FoldConcat(MixByte, OFFSET_BASIS, d1 + d2 + d3 + d4, d5);
    ghost var front := L1Bytes(m);
    NoBlobs();
    assert m.l2[..0] == [] && front + [] == front;
    for i := 0 to |m.l2|
      invariant h == Fold(MixByte, OFFSET_BASIS, front + BlobsBytes(m.l2[..i]))
    {
      var d := WordBytes(m.l2[i]);
      h := Mix(h, d);
      FoldConcat(MixByte, OFFSET_BASIS, front + BlobsBytes(m.l2[..i]), d);
      BlobsSnoc(m.l2[..i], m.l2[i]);
      assert m.l2[..i + 1] == m.l2[..i] + [m.l2[i]];
      assert front + BlobsBytes(m.l2[..i]) + d == front + (BlobsBytes(m.l2[..i]) + d);
    }
    assert m.l2[..|m.l2|] == m.l2;
    text := Hex(h);
  }

  lemma NoBlobs()
    ensures BlobsBytes([]) == []
  {}

  // ---- The file ----

  function StrBytes(s: Bytes): Bytes {
    LeBytes(|s| % 0x10000, 2) + s[..|s| % 0x10000]
  }

  function ModelFile(version: Bytes, checksum: Bytes, t: U64, l1: Bytes, n: nat, l2: Bytes): Bytes {
    Le32(MODEL_MAGIC) + Le32(1) + StrBytes(version) + StrBytes(checksum) + LeBytes(t, 8) + l1 + LeBytes(n, 4) + l2
  }

  /** save_model fills in the checksum before writing. */
  function Sealed(m: ModelParams): ModelParams {
    m.(checksum := Checksum(m))
  }

  function SavedModel(m: ModelParams): Bytes {
    ModelFile(m.version, Checksum(m), m.trainedAt, L1Bytes(m), |m.l2|, BlobsBytes(m.l2))
  }

  function ReadStr(b: Bytes): Option<(Bytes, Bytes)> {
    if |b| < 2 then None
    else
      var len := LeValue(b[..2]);
      if |b| < 2 + len then None else Some((b[2..2 + len], b[2 + len..]))
  }

  function ParseBlobs(b: Bytes, n: nat): (r: seq<seq<bv32>>)
    requires |b| == BLOB_SIZE * n
    ensures |r| == n
    decreases n
  {
    if n == 0 then []
    else [BytesWords(b[..BLOB_SIZE], BLOB_WORDS)] + ParseBlobs(b[BLOB_SIZE..], n - 1)
  }

  function Build(version: Bytes, checksum: Bytes, t: U64, l1: Bytes, n: nat, l2: Bytes): ModelParams
    requires |l1| == L1_SIZE && |l2| == BLOB_SIZE * n
  {
    ModelParams(version, checksum, t,
                BytesWords(l1[..128], 32), BytesWords(l1[128..8320], 2048), BytesWords(l1[8320..12416], 1024),
                BytesWords(l1[12416..12544], 32), BytesWords(l1[12544..], 2048), ParseBlobs(l2, n))
  }

  /** What load_model returns; a truncated file or a wrong header fails, bytes after the
      last blob are ignored. */
  function LoadModel(f: Bytes): Option<ModelParams> {
    if |f| < 8 || Pack(f[..4]) != MODEL_MAGIC || Pack(f[4..8]) != 1 then None
    else
      match ReadStr(f[8..])
      case None => None
      case Some((version, b)) =>
        match ReadStr(b)
        case None => None
        case Some((checksum, c)) => LoadParams(version, checksum, c)
  }

  function LoadParams(version: Bytes, checksum: Bytes, c: Bytes): Option<ModelParams> {
    if |c| < 8 + L1_SIZE + 4 then None
    else
      var n := LeValue(c[8 + L1_SIZE..8 + L1_SIZE + 4]);
      var l2 := c[8 + L1_SIZE + 4..];
      if n > MAX_L2_LAYERS || |l2| < BLOB_SIZE * n then None
      else
        LeValueBound(c[..8]);
        Powers();
        Some(Build(version, checksum, LeValue(c[..8]), c[8..8 + L1_SIZE], n, l2[..BLOB_SIZE * n]))
  }

  lemma StrReads(s: Bytes, rest: Bytes)
    requires |s| < 0x10000
    ensures ReadStr(StrBytes(s) + rest) == Some((s, rest))
  {
    hide LeBytes, LeValue;
    LeTruncates(|s|, 2);
    Powers();
    ThreeParts(LeBytes(|s|, 2), s, rest);
    assert StrBytes(s) + rest == LeBytes(|s|, 2) + s + rest;
  }

  lemma ThreeParts(x: Bytes, y: Bytes, z: Bytes)
    ensures var b := x + y + z;
      |b| == |x| + |y| + |z| && b[..|x|] == x && b[|x|..|x| + |y|] == y && b[|x| + |y|..] == z
  {}

  lemma Power4()
    ensures Power256(4) == 0x1_0000_0000
  {}

  lemma ParamsLoad(version: Bytes, checksum: Bytes, t: U64, l1: Bytes, n: nat, l2: Bytes)
    requires |l1| == L1_SIZE && n <= MAX_L2_LAYERS && |l2| == BLOB_SIZE * n
    ensures LoadParams(version, checksum, LeBytes(t, 8) + l1 + (LeBytes(n, 4) + l2))
         == Some(Build(version, checksum, t, l1, n, l2))
  {
    hide LeBytes, LeValue, Build;
    Le64RoundTrip(t);
    LeTruncates(n, 4);
    Power4();
    ThreeParts(LeBytes(t, 8), l1, LeBytes(n, 4) + l2);
    var c := LeBytes(t, 8) + l1 + (LeBytes(n, 4) + l2);
    Joint(LeBytes(n, 4), l2);
    assert c[8 + L1_SIZE..8 + L1_SIZE + 4] == c[8 + L1_SIZE..][..4];
    assert c[8 + L1_SIZE + 4..] == c[8 + L1_SIZE..][4..];
    assert l2[..BLOB_SIZE * n] == l2;
  }

  /** Reading back any file laid out this way, whatever its parameter bytes are. */
  lemma FileLoads(version: Bytes, checksum: Bytes, t: U64, l1: Bytes, n: nat, l2: Bytes)
    requires |version| < 0x10000 && |checksum| < 0x10000
    requires |l1| == L1_SIZE && n <= MAX_L2_LAYERS && |l2| == BLOB_SIZE * n
    ensures LoadModel(ModelFile(version, checksum, t, l1, n, l2)) == Some(Build(version, checksum, t, l1, n, l2))
  {
    hide LeBytes, LeValue, Build, ReadStr, StrBytes, LoadParams, Pack, Le32;
    var f := ModelFile(version, checksum, t, l1, n, l2);
    var tail := LeBytes(t, 8) + l1 + (LeBytes(n, 4) + l2);
    var afterVersion := StrBytes(checksum) + tail;
    var afterHeader := StrBytes(version) + afterVersion;
    assert f == Le32(MODEL_MAGIC) + Le32(1) + afterHeader;
    ThreeParts(Le32(MODEL_MAGIC), Le32(1), afterHeader);
    Le32RoundTrip(MODEL_MAGIC);
    Le32RoundTrip(1);
    StrReads(version, afterVersion);
    StrReads(checksum, tail);
    ParamsLoad(version, checksum, t, l1, n, l2);
  }

  // ---- Round trip ----

  lemma {:induction false} BlobsSize(blobs: seq<seq<bv32>>)
    requires forall i :: 0 <= i < |blobs| ==> |blobs[i]| == BLOB_WORDS
    ensures |BlobsBytes(blobs)| == BLOB_SIZE * |blobs|
    decreases |blobs|
  {
    if blobs != [] {
      hide WordBytes;
      BlobsSize(blobs[1..]);
    }
  }

  lemma {:induction false} BlobsRoundTrip(blobs: seq<seq<bv32>>)
    requires forall i :: 0 <= i < |blobs| ==> |blobs[i]| == BLOB_WORDS
    requires |BlobsBytes(blobs)| == BLOB_SIZE * |blobs|
    ensures ParseBlobs(BlobsBytes(blobs), |blobs|) == blobs
    decreases |blobs|
  {
    hide WordBytes, BytesWords;
    if blobs != [] {
      BlobsSize(blobs[1..]);
      BlobsRoundTrip(blobs[1..]);
      WordsRoundTrip(blobs[0]);
      Joint(WordBytes(blobs[0]), BlobsBytes(blobs[1..]));
    }
  }

  lemma {:induction false} BlobsBack(b: Bytes, n: nat)
    requires |b| == BLOB_SIZE * n
    ensures BlobsBytes(ParseBlobs(b, n)) == b
    decreases n
  {
    hide WordBytes, BytesWords;
    if n > 0 {
      BlobsBack(b[BLOB_SIZE..], n - 1);
      WordsBack(b[..BLOB_SIZE], BLOB_WORDS);
      assert ParseBlobs(b, n)[1..] == ParseBlobs(b[BLOB_SIZE..], n - 1);
      assert b == b[..BLOB_SIZE] + b[BLOB_SIZE..];
    }
  }

  lemma FiveParts(v: Bytes, w: Bytes, x: Bytes, y: Bytes, z: Bytes)
    ensures var b := v + w + x + y + z;
      && |b| == |v| + |w| + |x| + |y| + |z|
      && b[..|v|] == v && b[|v|..|v| + |w|] == w && b[|v| + |w|..|v| + |w| + |x|] == x
      && b[|v| + |w| + |x|..|v| + |w| + |x| + |y|] == y && b[|v| + |w| + |x| + |y|..] == z
  {}

  lemma BuildUndoesWriting(m: ModelParams)
    requires m.WellSized()
    ensures |L1Bytes(m)| == L1_SIZE && |BlobsBytes(m.l2)| == BLOB_SIZE * |m.l2|
    ensures Build(m.version, m.checksum, m.trainedAt, L1Bytes(m), |m.l2|, BlobsBytes(m.l2)) == m
  {
    hide WordBytes, BytesWords, ParseBlobs, BlobsBytes;
    FiveParts(WordBytes(m.l1A), WordBytes(m.l1B), WordBytes(m.l1C), WordBytes(m.l1D), WordBytes(m.l1Delta));
    WordsRoundTrip(m.l1A);
    WordsRoundTrip(m.l1B);
    WordsRoundTrip(m.l1C);
    WordsRoundTrip(m.l1D);
    WordsRoundTrip(m.l1Delta);
    BlobsSize(m.l2);
    BlobsRoundTrip(m.l2);
  }

  lemma WritingUndoesBuild(version: Bytes, checksum: Bytes, t: U64, l1: Bytes, n: nat, l2: Bytes)
    requires |l1| == L1_SIZE && |l2| == BLOB_SIZE * n
    ensures var m := Build(version, checksum, t, l1, n, l2);
      L1Bytes(m) == l1 && BlobsBytes(m.l2) == l2
  {
    hide WordBytes, BytesWords, ParseBlobs, BlobsBytes;
    WordsBack(l1[..128], 32);
    WordsBack(l1[128..8320], 2048);
    WordsBack(l1[8320..12416], 1024);
    WordsBack(l1[12416..12544], 32);
    WordsBack(l1[12544..], 2048);
    BlobsBack(l2, n);
    assert l1 == l1[..128] + l1[128..8320] + l1[8320..12416] + l1[12416..12544] + l1[12544..];
  }

  lemma LoadedIsBounded(f: Bytes)
    ensures LoadModel(f).Some? ==>
      |LoadModel(f).value.version| < 0x10000 && |LoadModel(f).value.l2| <= MAX_L2_LAYERS
  {
    hide LeValue, Pack, BytesWords, ParseBlobs;
    if |f| >= 10 {
      LeValueBound(f[8..][..2]);
      Powers();
    }
  }

  /** load_model gives back the saved model with its checksum filled in, exactly when the
      version string fits its two-byte length and there are at most 64 L2 blobs. */
  lemma RoundTripExactly(m: ModelParams)
    requires m.WellSized()
    ensures LoadModel(SavedModel(m)) == Some(Sealed(m)) <==> |m.version| < 0x10000 && |m.l2| <= MAX_L2_LAYERS
  {
    hide L1Bytes, BlobsBytes, LoadModel, ModelFile, Build;
    LoadedIsBounded(SavedModel(m));
    if |m.version| < 0x10000 && |m.l2| <= MAX_L2_LAYERS {
      BuildUndoesWriting(Sealed(m));
      SealKeepsBytes(m);
      FileLoads(m.version, Checksum(m), m.trainedAt, L1Bytes(m), |m.l2|, BlobsBytes(m.l2));
    }
  }

  lemma SealKeepsBytes(m: ModelParams)
    ensures L1Bytes(Sealed(m)) == L1Bytes(m) && Checksum(Sealed(m)) == Checksum(m)
  {}

  /** What save_model wrote passes validate_model unless the caller's model was itself
      unnamed or held a NaN or infinity. */
  lemma SealedIsValid(m: ModelParams)
    requires m.WellSized()
    ensures Valid(Sealed(m)) <==> m.version != [] && m.AllWordsFinite()
  {
    hide Checksum, AllFinite;
    SealKeepsBytes(m);
  }

  // ---- Tampering ----

  /** stage_model: load, then validate. */
  function Stage(f: Bytes): Option<ModelParams> {
    match LoadModel(f)
    case None => None
    case Some(m) => if Valid(m) then Some(m) else None
  }

  function ParamStart(m: ModelParams): nat {
    8 + 2 + |m.version| + 2 + |Checksum(m)| + 8
  }

  /** Offsets of parameter bytes: the L1 arrays and, after the layer count, the L2 blobs. */
  predicate IsParamOffset(m: ModelParams, i: nat) {
    || ParamStart(m) <= i < ParamStart(m) + L1_SIZE
    || ParamStart(m) + L1_SIZE + 4 <= i < |SavedModel(m)|
  }

  lemma ChecksumMismatchInvalid(version: Bytes, checksum: Bytes, t: U64, l1: Bytes, n: nat, l2: Bytes)
    requires |l1| == L1_SIZE && |l2| == BLOB_SIZE * n
    requires checksum != [] && checksum != Hex(Hash(l1 + l2))
    ensures !Valid(Build(version, checksum, t, l1, n, l2))
  {
    hide Hash, Hex, L1Bytes, BlobsBytes;
    WritingUndoesBuild(version, checksum, t, l1, n, l2);
    BuildKeepsChecksum(version, checksum, t, l1, n, l2);
    hide Build;
  }

  lemma BuildKeepsChecksum(version: Bytes, checksum: Bytes, t: U64, l1: Bytes, n: nat, l2: Bytes)
    requires |l1| == L1_SIZE && |l2| == BLOB_SIZE * n
    ensures Build(version, checksum, t, l1, n, l2).checksum == checksum
  {}

  lemma UpdateEnds(x: Bytes, y: Bytes, j: nat, b: bv8)
    ensures j < |x| ==> (x + y)[j := b] == x[j := b] + y && (x + y)[j] == x[j]
    ensures j < |y| ==> (x + y)[|x| + j := b] == x + y[j := b] && (x + y)[|x| + j] == y[j]
  {}

  lemma ParamSizes(m: ModelParams)
    requires m.WellSized()
    ensures |L1Bytes(m)| == L1_SIZE && |BlobsBytes(m.l2)| == BLOB_SIZE * |m.l2|
  {
    hide Build, L1Bytes, BlobsBytes;
    BuildUndoesWriting(m);
  }

  /** The saved file with other parameter bytes in it. */
  function WithParams(m: ModelParams, l1: Bytes, l2: Bytes): Bytes {
    ModelFile(m.version, Checksum(m), m.trainedAt, l1, |m.l2|, l2)
  }

  /** A file laid out like a saved one, but with other parameter bytes, fails validation. */
  lemma OtherParamsRejected(m: ModelParams, l1: Bytes, l2: Bytes)
    requires m.WellSized() && |m.version| < 0x10000 && |m.l2| <= MAX_L2_LAYERS
    requires |l1| == L1_SIZE && |l2| == BLOB_SIZE * |m.l2|
    requires Hash(l1 + l2) != Hash(L1Bytes(m) + BlobsBytes(m.l2))
    ensures Stage(WithParams(m, l1, l2)) == None
  {
    hide LoadModel, ModelFile, Build, Valid, L1Bytes, BlobsBytes, Hex, Hash;
    FileLoads(m.version, Checksum(m), m.trainedAt, l1, |m.l2|, l2);
    if Checksum(m) == Hex(Hash(l1 + l2)) {
      HexInjective(Hash(l1 + l2), Hash(L1Bytes(m) + BlobsBytes(m.l2)));
    }
    ChecksumMismatchInvalid(m.version, Checksum(m), m.trainedAt, l1, |m.l2|, l2);
  }

  function Front(m: ModelParams): Bytes {
    Le32(MODEL_MAGIC) + Le32(1) + StrBytes(m.version) + StrBytes(Checksum(m)) + LeBytes(m.trainedAt, 8)
  }

  lemma FileAroundParams(m: ModelParams, l1: Bytes, l2: Bytes)
    requires |m.version| < 0x10000
    ensures |Front(m)| == ParamStart(m)
    ensures WithParams(m, l1, l2) == Front(m) + l1 + (LeBytes(|m.l2|, 4) + l2)
  {
    hide Checksum, Le32, LeBytes;
  }

  lemma L1ByteRejected(m: ModelParams, j: nat, b: bv8)
    requires m.WellSized() && |m.version| < 0x10000 && |m.l2| <= MAX_L2_LAYERS
    requires j < |L1Bytes(m)| && b != L1Bytes(m)[j]
    ensures Stage(WithParams(m, L1Bytes(m)[j := b], BlobsBytes(m.l2))) == None
  {
    hide *;
    var l1, l2 := L1Bytes(m), BlobsBytes(m.l2);
    ParamSizes(m);
    UpdateEnds(l1, l2, j, b);
    HashDetectsOneByte(l1 + l2, j, b);
    OtherParamsRejected(m, l1[j := b], l2);
  }

  lemma L2ByteRejected(m: ModelParams, j: nat, b: bv8)
    requires m.WellSized() && |m.version| < 0x10000 && |m.l2| <= MAX_L2_LAYERS
    requires j < |BlobsBytes(m.l2)| && b != BlobsBytes(m.l2)[j]
    ensures Stage(WithParams(m, L1Bytes(m), BlobsBytes(m.l2)[j := b])) == None
  {
    hide *;
    var l1, l2 := L1Bytes(m), BlobsBytes(m.l2);
    ParamSizes(m);
    UpdateEnds(l1, l2, j, b);
    HashDetectsOneByte(l1 + l2, |l1| + j, b);
    OtherParamsRejected(m, l1, l2[j := b]);
  }

  lemma UpdateInFile(p: Bytes, x: Bytes, c: Bytes, y: Bytes, i: nat, b: bv8)
    requires i < |p + x + (c + y)|
    ensures |p| <= i < |p| + |x| ==>
      (p + x + (c + y))[i := b] == p + x[i - |p| := b] + (c + y) && (p + x + (c + y))[i] == x[i - |p|]
    ensures |p| + |x| + |c| <= i ==>
      (p + x + (c + y))[i := b] == p + x + (c + y[i - |p| - |x| - |c| := b])
      && (p + x + (c + y))[i] == y[i - |p| - |x| - |c|]
  {}

  /** Any one changed byte among the parameters of a saved model makes stage_model fail. */
  lemma OneByteRejected(m: ModelParams, i: nat, b: bv8)
    requires m.WellSized() && |m.version| < 0x10000 && |m.l2| <= MAX_L2_LAYERS
    requires IsParamOffset(m, i) && i < |SavedModel(m)| && b != SavedModel(m)[i]
    ensures Stage(SavedModel(m)[i := b]) == None
  {
    hide Stage, WithParams, L1Bytes, BlobsBytes, LeBytes, Front, ParamStart, ModelFile;
    var l1, l2, p, c := L1Bytes(m), BlobsBytes(m.l2), Front(m), LeBytes(|m.l2|, 4);
    ParamSizes(m);
    SavedIsWithParams(m);
    FileAroundParams(m, l1, l2);
    UpdateInFile(p, l1, c, l2, i, b);
    if i < ParamStart(m) + L1_SIZE {
      FileAroundParams(m, l1[i - |p| := b], l2);
      L1ByteRejected(m, i - |p|, b);
    } else {
      var j := i - |p| - |l1| - |c|;
      FileAroundParams(m, l1, l2[j := b]);
      L2ByteRejected(m, j, b);
    }
  }

  lemma SavedIsWithParams(m: ModelParams)
    ensures SavedModel(m) == WithParams(m, L1Bytes(m), BlobsBytes(m.l2))
  {}

  // ---- The methods of the source ----

  method ValidateModel(m: ModelParams) returns (ok: bool)
    ensures ok == Valid(m)
  {
    hide AllFinite, Checksum;
    if m.version == [] || m.l1A == [] {
      return false;
    }
    var a := WordsFinite(m.l1A);
    var b := WordsFinite(m.l1B);
    var c := WordsFinite(m.l1C);
    var d := WordsFinite(m.l1D);
    var e := WordsFinite(m.l1Delta);
    if !(a && b && c && d && e) {
      return false;
    }
    for i := 0 to |m.l2|
      invariant forall j :: 0 <= j < i ==> AllFinite(m.l2[j])
    {
      var finite := WordsFinite(m.l2[i]);
      if !finite {
        return false;
      }
    }
    if |m.l1A| != SDIM || |m.l1B| != SDIM * EDIM || |m.l1C| != SDIM * SDIM || |m.l1D| != SDIM
      || |m.l1Delta| != SDIM * EDIM {
      return false;
    }
    for i := 0 to |m.l2|
      invariant forall j :: 0 <= j < i ==> |m.l2[j]| == BLOB_WORDS
    {
      if |m.l2[i]| != BLOB_WORDS {
        return false;
      }
    }
    if m.checksum != [] {
      var computed := ComputeChecksum(m);
      return computed == m.checksum;
    }
    return true;
  }

  method SaveModel(m: ModelParams) returns (sealed: ModelParams, file: Bytes)
    ensures sealed == Sealed(m) && file == SavedModel(m)
  {
    hide WordBytes, BlobsBytes, Le32, LeBytes, StrBytes, Checksum;
    var checksum := ComputeChecksum(m);
    sealed := m.(checksum := checksum);
    file := Le32(MODEL_MAGIC) + Le32(1) + StrBytes(m.version) + StrBytes(checksum) + LeBytes(m.trainedAt, 8);
    ghost var front := file;
    file := file + WordBytes(m.l1A);
    file := file + WordBytes(m.l1B);
    file := file + WordBytes(m.l1C);
    file := file + WordBytes(m.l1D);
    file := file + WordBytes(m.l1Delta);
    assert file == front + L1Bytes(m);
    file := file + LeBytes(|m.l2|, 4);
    ghost var head := file;
    NoBlobs();
    assert m.l2[..0] == [] && head + [] == head;
    for i := 0 to |m.l2|
      invariant file == head + BlobsBytes(m.l2[..i])
    {
      BlobsSnoc(m.l2[..i], m.l2[i]);
      assert m.l2[..i + 1] == m.l2[..i] + [m.l2[i]];
      file := file + WordBytes(m.l2[i]);
    }
    assert m.l2[..|m.l2|] == m.l2;
  }

  method ReadStrAt(f: Bytes, pos: nat) returns (ok: bool, s: Bytes, next: nat)
    requires pos <= |f|
    ensures ok == ReadStr(f[pos..]).Some?
    ensures ok ==> pos <= next <= |f| && ReadStr(f[pos..]) == Some((s, f[next..]))
  {
    hide LeValue;
    if pos + 2 > |f| {
      return false, [], pos;
    }
    var len := LeValue(f[pos..pos + 2]);
    assert f[pos..][..2] == f[pos..pos + 2];
    if pos + 2 + len > |f| {
      return false, [], pos;
    }
    assert f[pos..][2..2 + len] == f[pos + 2..pos + 2 + len];
    assert f[pos..][2 + len..] == f[pos + 2 + len..];
    return true, f[pos + 2..pos + 2 + len], pos + 2 + len;
  }

  lemma {:induction false} ParseBlobsSnoc(b: Bytes, c: Bytes, n: nat)
    requires |b| == BLOB_SIZE * n && |c| == BLOB_SIZE
    ensures ParseBlobs(b + c, n + 1) == ParseBlobs(b, n) + [BytesWords(c, BLOB_WORDS)]
    decreases n
  {
    hide BytesWords;
    if n == 0 {
      assert b + c == c && c[..BLOB_SIZE] == c;
    } else {
      assert (b + c)[..BLOB_SIZE] == b[..BLOB_SIZE] && (b + c)[BLOB_SIZE..] == b[BLOB_SIZE..] + c;
      ParseBlobsSnoc(b[BLOB_SIZE..], c, n - 1);
    }
  }

  /** The stream's failure bit is checked once at the end in the source; stopping at the
      first short read returns the same. */
  method LoadModelFile(f: Bytes) returns (r: Option<ModelParams>)
    ensures r == LoadModel(f)
  {
    hide Pack, ReadStr, LoadParams;
    if |f| < 8 {
      return None;
    }
    var magic, ver := Pack(f[..4]), Pack(f[4..8]);
    if magic != MODEL_MAGIC || ver != 1 {
      return None;
    }
    var ok, version, p := ReadStrAt(f, 8);
    if !ok {
      return None;
    }
    var ok2, checksum, q := ReadStrAt(f, p);
    if !ok2 {
      return None;
    }
    r := LoadArrays(version, checksum, f[q..]);
  }

  method LoadArrays(version: Bytes, checksum: Bytes, c: Bytes) returns (r: Option<ModelParams>)
    ensures r == LoadParams(version, checksum, c)
  {
    hide LeValue, BytesWords, ParseBlobs;
    if |c| < 8 + L1_SIZE + 4 {
      return None;
    }
    LeValueBound(c[..8]);
    Powers();
    var t := LeValue(c[..8]);
    var l1 := c[8..8 + L1_SIZE];
    var n := LeValue(c[8 + L1_SIZE..8 + L1_SIZE + 4]);
    if n > MAX_L2_LAYERS {
      return None;
    }
    var start := 8 + L1_SIZE + 4;
    ghost var l2 := c[start..];
    var pos := start;
    var blobs: seq<seq<bv32>> := [];
    assert ParseBlobs([], 0) == [] by { NoParsedBlobs(); }
    assert l2[..0] == [];
    for i := 0 to n
      invariant pos == start + BLOB_SIZE * i <= |c|
      invariant blobs == ParseBlobs(l2[..BLOB_SIZE * i], i)
    {
      if pos + BLOB_SIZE > |c| {
        return None;
      }
      ParseBlobsSnoc(l2[..BLOB_SIZE * i], c[pos..pos + BLOB_SIZE], i);
      assert l2[..BLOB_SIZE * i] + c[pos..pos + BLOB_SIZE] == l2[..BLOB_SIZE * (i + 1)];
      blobs := blobs + [BytesWords(c[pos..pos + BLOB_SIZE], BLOB_WORDS)];
      pos := pos + BLOB_SIZE;
    }
    r := Some(ModelParams(version, checksum, t,
                          BytesWords(l1[..128], 32), BytesWords(l1[128..8320], 2048), BytesWords(l1[8320..12416], 1024),
                          BytesWords(l1[12416..12544], 32), BytesWords(l1[12544..], 2048), blobs));
  }

  lemma NoParsedBlobs()
    ensures ParseBlobs([], 0) == []
  {}

  // ---- One L2 layer as a blob ----

  datatype LayerParams = LayerParams(
    aLog: seq<bv32>, bProj: seq<bv32>, cProj: seq<bv32>, dSkip: seq<bv32>, deltaProj: seq<bv32>)
  {
    predicate Shaped() {
      |aLog| == SDIM && |bProj| == SDIM * SDIM && |cProj| == SDIM * SDIM && |dSkip| == SDIM && |deltaProj| == SDIM * SDIM
    }
  }

  function BlobFromParams(p: LayerParams): seq<bv32> {
    p.aLog + p.bProj + p.cProj + p.dSkip + p.deltaProj
  }

  function ParamsFromBlob(blob: seq<bv32>): LayerParams
    requires |blob| == BLOB_WORDS
  {
    var off := [0, SDIM, SDIM + SDIM * SDIM, SDIM + 2 * SDIM * SDIM, 2 * SDIM + 2 * SDIM * SDIM];
    LayerParams(blob[..off[1]], blob[off[1]..off[2]], blob[off[2]..off[3]], blob[off[3]..off[4]], blob[off[4]..])
  }

  /** The two conversions are inverse to each other on well-sized layers and blobs. */
  lemma LayerBlobBijection(p: LayerParams, blob: seq<bv32>)
    requires p.Shaped() && |blob| == BLOB_WORDS
    ensures |BlobFromParams(p)| == BLOB_WORDS && ParamsFromBlob(BlobFromParams(p)) == p
    ensures ParamsFromBlob(blob).Shaped() && BlobFromParams(ParamsFromBlob(blob)) == blob
  {
    var b := BlobFromParams(p);
    assert b[..32] == p.aLog && b[32..1056] == p.bProj && b[1056..2080] == p.cProj;
    assert b[2080..2112] == p.dSkip && b[2112..] == p.deltaProj;
  }
}
