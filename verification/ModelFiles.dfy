/** Which byte strings load_model accepts: exactly the files of the format, whatever follows
    them. */
module ModelFiles {
  import opened Crc32
  import opened LittleEndian
  import opened Fnv
  import opened ModelCodec
  import StateFiles
  import StateLayout

  lemma StrIsRead(b: Bytes)
    requires ReadStr(b).Some?
    ensures var (s, rest) := ReadStr(b).value; |s| < 0x10000 && b == StrBytes(s) + rest
  {
    hide LeBytes, LeValue;
    var (s, rest) := ReadStr(b).value;
    LeValueBound(b[..2]);
    Powers();
    StateFiles.LeForth(b[..2]);
    assert s[..|s| % 0x10000] == s;
    assert b == b[..2] + b[2..2 + |s|] + b[2 + |s|..];
  }

  /** The part of the file after the strings. */
  lemma ParamsAreRead(version: Bytes, checksum: Bytes, c: Bytes) returns (t: U64, l1: Bytes, n: nat, l2: Bytes, rest: Bytes)
    requires LoadParams(version, checksum, c).Some?
    ensures |l1| == L1_SIZE && n <= MAX_L2_LAYERS && |l2| == BLOB_SIZE * n
    ensures c == LeBytes(t, 8) + l1 + (LeBytes(n, 4) + l2) + rest
    ensures LoadParams(version, checksum, c) == Some(Build(version, checksum, t, l1, n, l2))
  {
    hide LeBytes, LeValue, Build;
    LeValueBound(c[..8]);
    Powers();
    var count := c[8 + L1_SIZE..8 + L1_SIZE + 4];
    var tail := c[8 + L1_SIZE + 4..];
    t, l1, n := LeValue(c[..8]), c[8..8 + L1_SIZE], LeValue(count);
    l2, rest := tail[..BLOB_SIZE * n], tail[BLOB_SIZE * n..];
    StateFiles.LeForth(c[..8]);
    StateFiles.LeForth(count);
    CutInFour(c, 8, 8 + L1_SIZE, 8 + L1_SIZE + 4);
    assert tail == l2 + rest;
    Regroup(c[..8], l1, count, l2, rest);
  }

  lemma CutInFour(c: Bytes, i: nat, j: nat, k: nat)
    requires i <= j <= k <= |c|
    ensures c == c[..i] + c[i..j] + c[j..k] + c[k..]
  {}

  lemma Regroup(a: Bytes, b: Bytes, c: Bytes, d: Bytes, e: Bytes)
    ensures a + b + c + (d + e) == a + b + (c + d) + e
  {
    assert c + (d + e) == (c + d) + e;
    assert a + b + c + (d + e) == a + b + (c + (d + e));
  }

  /** The file that a loaded model was read from. */
  lemma LoadedIsFile(f: Bytes) returns (m: ModelParams, t: U64, l1: Bytes, n: nat, l2: Bytes, rest: Bytes)
    requires LoadModel(f).Some?
    ensures m == LoadModel(f).value && |m.version| < 0x10000 && |m.checksum| < 0x10000
    ensures |l1| == L1_SIZE && n <= MAX_L2_LAYERS && |l2| == BLOB_SIZE * n
    ensures f == ModelFile(m.version, m.checksum, t, l1, n, l2) + rest
    ensures m == Build(m.version, m.checksum, t, l1, n, l2)
  {
    hide LeBytes, LeValue, Build, ReadStr, StrBytes, LoadParams, Pack, Le32;
    m := LoadModel(f).value;
    var (version, b) := ReadStr(f[8..]).value;
    StrIsRead(f[8..]);
    var (checksum, c) := ReadStr(b).value;
    StrIsRead(b);
    t, l1, n, l2, rest := ParamsAreRead(version, checksum, c);
    BuildNames(version, checksum, t, l1, n, l2);
    Le32Back(f[..4]);
    Le32Back(f[4..8]);
    assert f == f[..4] + f[4..8] + f[8..];
    Flatten(f[..4], f[4..8], StrBytes(version), StrBytes(checksum), LeBytes(t, 8), l1, LeBytes(n, 4), l2, rest);
  }

  lemma BuildNames(version: Bytes, checksum: Bytes, t: U64, l1: Bytes, n: nat, l2: Bytes)
    requires |l1| == L1_SIZE && |l2| == BLOB_SIZE * n
    ensures Build(version, checksum, t, l1, n, l2).version == version && Build(version, checksum, t, l1, n, l2).checksum == checksum
  {}

  lemma Assoc(a: Bytes, b: Bytes, c: Bytes)
    ensures a + (b + c) == a + b + c
  {}

  lemma Flatten(a: Bytes, b: Bytes, v: Bytes, c: Bytes, t: Bytes, l1: Bytes, n: Bytes, l2: Bytes, rest: Bytes)
    ensures a + b + (v + (c + (t + l1 + (n + l2) + rest))) == a + b + v + c + t + l1 + n + l2 + rest
  {
    Assoc(a + b, v, c + (t + l1 + (n + l2) + rest));
    Assoc(a + b + v, c, t + l1 + (n + l2) + rest);
    Assoc(a + b + v + c, t + l1 + (n + l2), rest);
    Assoc(t + l1, n, l2);
    Assoc(a + b + v + c, t + l1 + n, l2);
    Assoc(a + b + v + c, t + l1, n);
    Assoc(a + b + v + c, t, l1);
  }

  /** A file loads exactly if it begins with a file of the format: magic number and format 1, a
      version and a checksum, a time, the arrays, and at most 64 blobs. */
  lemma LoadsExactly(f: Bytes)
    ensures LoadModel(f).Some? <==>
      exists version, checksum, t: U64, l1, n: nat, l2 :: IsFile(f, version, checksum, t, l1, n, l2)
  {
    hide LoadModel, ModelFile, Build;
    if LoadModel(f).Some? {
      var m, t, l1, n, l2, rest := LoadedIsFile(f);
      assert IsFile(f, m.version, m.checksum, t, l1, n, l2);
    }
    if version, checksum, t: U64, l1, n: nat, l2 :| IsFile(f, version, checksum, t, l1, n, l2) {
      var file := ModelFile(version, checksum, t, l1, n, l2);
      LongFileLoads(version, checksum, t, l1, n, l2, f[|file|..]);
      assert f == file + f[|file|..];
    }
  }

  ghost predicate IsFile(f: Bytes, version: Bytes, checksum: Bytes, t: U64, l1: Bytes, n: nat, l2: Bytes) {
    && |version| < 0x10000 && |checksum| < 0x10000
    && |l1| == 20736 && n <= 64 && |l2| == 12544 * n
    && ModelFile(version, checksum, t, l1, n, l2) <= f
  }

  /** What follows the last blob does not matter. */
  lemma LongFileLoads(version: Bytes, checksum: Bytes, t: U64, l1: Bytes, n: nat, l2: Bytes, rest: Bytes)
    requires |version| < 0x10000 && |checksum| < 0x10000
    requires |l1| == L1_SIZE && n <= MAX_L2_LAYERS && |l2| == BLOB_SIZE * n
    ensures LoadModel(ModelFile(version, checksum, t, l1, n, l2) + rest) == Some(Build(version, checksum, t, l1, n, l2))
  {
    hide LeBytes, LeValue, Build, ReadStr, StrBytes, LoadParams, Pack, Le32;
    var f := ModelFile(version, checksum, t, l1, n, l2) + rest;
    var tail := LeBytes(t, 8) + l1 + (LeBytes(n, 4) + l2) + rest;
    Flatten(Le32(MODEL_MAGIC), Le32(1), StrBytes(version), StrBytes(checksum), LeBytes(t, 8), l1, LeBytes(n, 4), l2, rest);
    var afterVersion := StrBytes(checksum) + tail;
    var afterHeader := StrBytes(version) + afterVersion;
    assert f == Le32(MODEL_MAGIC) + Le32(1) + afterHeader;
    ThreeParts(Le32(MODEL_MAGIC), Le32(1), afterHeader);
    Le32RoundTrip(MODEL_MAGIC);
    Le32RoundTrip(1);
    StrReads(version, afterVersion);
    StrReads(checksum, tail);
    LongParamsLoad(version, checksum, t, l1, n, l2, rest);
  }

  lemma LongParamsLoad(version: Bytes, checksum: Bytes, t: U64, l1: Bytes, n: nat, l2: Bytes, rest: Bytes)
    requires |l1| == L1_SIZE && n <= MAX_L2_LAYERS && |l2| == BLOB_SIZE * n
    ensures LoadParams(version, checksum, LeBytes(t, 8) + l1 + (LeBytes(n, 4) + l2) + rest)
         == Some(Build(version, checksum, t, l1, n, l2))
  {
    hide LeBytes, LeValue, Build;
    var c := LeBytes(t, 8) + l1 + (LeBytes(n, 4) + l2) + rest;
    Le64RoundTrip(t);
    LeTruncates(n, 4);
    Power4();
    Regroup(LeBytes(t, 8), l1, LeBytes(n, 4), l2, rest);
    assert c == LeBytes(t, 8) + l1 + LeBytes(n, 4) + (l2 + rest);
    Cut(LeBytes(t, 8), l1, LeBytes(n, 4), l2 + rest);
    Joint(l2, rest);
  }

  lemma Cut(a: Bytes, b: Bytes, c: Bytes, d: Bytes)
    ensures var f := a + b + c + d;
      && f[..|a|] == a && f[|a|..|a| + |b|] == b && f[|a| + |b|..|a| + |b| + |c|] == c && f[|a| + |b| + |c|..] == d
  {}

  // ---- Validation and staging ----

  /** No word's exponent is all ones. */
  ghost predicate Numbers(ws: seq<bv32>) {
    forall i :: 0 <= i < |ws| ==> StateLayout.Exponent(ws[i]) != 0xFF
  }

  lemma NumbersAreFinite(ws: seq<bv32>)
    ensures Numbers(ws) <==> AllFinite(ws)
  {
    hide Finite, StateLayout.Exponent;
    forall i | 0 <= i < |ws| ensures Finite(ws[i]) <==> StateLayout.Exponent(ws[i]) != 0xFF {
      StateLayout.FiniteExponent(ws[i]);
    }
  }

  /** What validate_model accepts: a named model with arrays of the right sizes, all numbers, and
      no checksum or the right one. */
  lemma ValidExactly(m: ModelParams)
    ensures Valid(m) <==>
      && |m.version| > 0
      && |m.l1A| == 32 && |m.l1B| == 2048 && |m.l1C| == 1024 && |m.l1D| == 32 && |m.l1Delta| == 2048
      && (forall i :: 0 <= i < |m.l2| ==> |m.l2[i]| == 3136)
      && Numbers(m.l1A) && Numbers(m.l1B) && Numbers(m.l1C) && Numbers(m.l1D) && Numbers(m.l1Delta)
      && (forall i :: 0 <= i < |m.l2| ==> Numbers(m.l2[i]))
      && (m.checksum == [] || m.checksum == Hex(Hash(L1Bytes(m) + BlobsBytes(m.l2))))
  {
    hide Numbers, AllFinite, Hex, Hash, L1Bytes, BlobsBytes;
    NumbersAreFinite(m.l1A);
    NumbersAreFinite(m.l1B);
    NumbersAreFinite(m.l1C);
    NumbersAreFinite(m.l1D);
    NumbersAreFinite(m.l1Delta);
    forall i | 0 <= i < |m.l2| ensures Numbers(m.l2[i]) <==> AllFinite(m.l2[i]) {
      NumbersAreFinite(m.l2[i]);
    }
  }

  /** A file is staged exactly if it loads and validates, and then as what it loads as. */
  lemma StagedExactly(f: Bytes, m: ModelParams)
    ensures Stage(f) == Some(m) <==> LoadModel(f) == Some(m) && Valid(m)
    ensures Stage(f) == None <==> LoadModel(f).None? || !Valid(LoadModel(f).value)
  {
    hide LoadModel, Valid;
  }

  /** The file of a model can be staged, with its checksum filled in, exactly if the model has a
      name of at most 65535 bytes, at most 64 blobs, and only numbers. */
  lemma SavedIsStaged(m: ModelParams)
    requires m.WellSized()
    ensures Stage(SavedModel(m)) == Some(Sealed(m)) <==>
              0 < |m.version| < 0x10000 && |m.l2| <= 64 && m.AllWordsFinite()
  {
    hide LoadModel, Valid, SavedModel, Sealed;
    RoundTripExactly(m);
    SealedIsValid(m);
    StagedExactly(SavedModel(m), Sealed(m));
  }
}
