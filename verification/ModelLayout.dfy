/** Where every field of a saved model file lies, what its checksum is of, and what the
    checksum's text says. */
module ModelLayout {
  import opened Folds
  import opened Crc32
  import opened LittleEndian
  import opened Fnv
  import opened ModelCodec
  import StateCodec
  import StateLayout

  // ---- What lies where ----

  ghost predicate At(f: Bytes, p: nat, piece: Bytes) {
    p + |piece| <= |f| && f[p..p + |piece|] == piece
  }

  /** A 32-bit word. */
  ghost predicate WordAt(f: Bytes, p: nat, w: bv32) {
    p + 4 <= |f| && Pack(f[p..p + 4]) == w
  }

  /** A number of n bytes. */
  ghost predicate NumberAt(f: Bytes, p: nat, n: nat, x: nat) {
    p + n <= |f| && LeValue(f[p..p + n]) == x
  }

  /** The words of an array. */
  ghost predicate WordsIn(f: Bytes, p: nat, ws: seq<bv32>) {
    p + 4 * |ws| <= |f| && forall i :: 0 <= i < |ws| ==> Pack(f[p + 4 * i..p + 4 * i + 4]) == ws[i]
  }

  lemma WordPlaced(f: Bytes, p: nat, w: bv32)
    requires At(f, p, Le32(w))
    ensures WordAt(f, p, w)
  {
    hide Pack, Le32;
    Le32RoundTrip(w);
  }

  lemma NumberPlaced(f: Bytes, p: nat, n: nat, x: nat)
    requires At(f, p, LeBytes(x, n))
    ensures NumberAt(f, p, n, x % Power256(n))
  {
    hide LeBytes, LeValue;
    LeTruncates(x, n);
  }

  lemma WordsPlaced(f: Bytes, p: nat, ws: seq<bv32>)
    requires At(f, p, WordBytes(ws))
    ensures WordsIn(f, p, ws)
  {
    hide Pack, WordBytes;
    forall i | 0 <= i < |ws| ensures Pack(f[p + 4 * i..p + 4 * i + 4]) == ws[i] {
      StateLayout.WordsAt(ws, i);
      StateCodec.PieceOfPiece(f, p, p + 4 * |ws|, 4 * i, 4 * i + 4);
    }
  }

  /** If f goes on with x and then rest at p, then x is at p and rest after it. */
  lemma Next(f: Bytes, p: nat, x: Bytes, rest: Bytes)
    requires p <= |f| && f[p..] == x + rest
    ensures At(f, p, x) && p + |x| <= |f| && f[p + |x|..] == rest
  {
    Joint(x, rest);
    assert f[p + |x|..] == f[p..][|x|..];
    assert f[p..p + |x|] == f[p..][..|x|];
  }

  lemma Assoc(a: Bytes, b: Bytes, c: Bytes)
    ensures a + b + c == a + (b + c)
  {}

  // ---- The model file ----

  /** As much of the version as its two-byte length can say. */
  function Kept(version: Bytes): (r: Bytes)
    ensures |version| < 0x10000 ==> r == version
    ensures |r| < 0x10000 && r <= version
  {
    version[..|version| % 0x10000]
  }

  /** Where the parameters begin. */
  function Start(m: ModelParams): nat {
    12 + |Kept(m.version)| + |Checksum(m)| + 8
  }

  /** The file as one piece after the other. */
  lemma FileIs(m: ModelParams)
    ensures var c, v := Checksum(m), Kept(m.version);
      var params := L1Bytes(m) + (LeBytes(|m.l2|, 4) + BlobsBytes(m.l2));
      SavedModel(m) == Le32(0x4D444C32) + (Le32(1) + (LeBytes(|v|, 2) + (v + (LeBytes(|c|, 2) + (c + (LeBytes(m.trainedAt, 8) + params))))))
  {
    hide LeBytes, Le32, L1Bytes, BlobsBytes, Checksum;
    var c, v := Checksum(m), Kept(m.version);
    assert c[..|c| % 0x10000] == c;
    var magic, one, lv, lc, t := Le32(0x4D444C32), Le32(1), LeBytes(|v|, 2), LeBytes(|c|, 2), LeBytes(m.trainedAt, 8);
    var l1, n, l2 := L1Bytes(m), LeBytes(|m.l2|, 4), BlobsBytes(m.l2);
    var head := magic + one + (lv + v) + (lc + c);
    assert SavedModel(m) == head + t + l1 + n + l2;
    Assoc(head + t + l1, n, l2);
    Assoc(head + t, l1, n + l2);
    Assoc(head, t, l1 + (n + l2));
    var tail := t + (l1 + (n + l2));
    Assoc(magic + one + (lv + v), lc + c, tail);
    Assoc(lc, c, tail);
    Assoc(magic + one, lv + v, lc + (c + tail));
    Assoc(lv, v, lc + (c + tail));
    Assoc(magic, one, lv + (v + (lc + (c + tail))));
  }

  lemma SevenPieces(f: Bytes, a: Bytes, b: Bytes, c: Bytes, d: Bytes, e: Bytes, g: Bytes, h: Bytes, rest: Bytes)
    requires f == a + (b + (c + (d + (e + (g + (h + rest))))))
    ensures At(f, 0, a) && At(f, |a|, b) && At(f, |a| + |b|, c) && At(f, |a| + |b| + |c|, d)
    ensures At(f, |a| + |b| + |c| + |d|, e) && At(f, |a| + |b| + |c| + |d| + |e|, g)
    ensures At(f, |a| + |b| + |c| + |d| + |e| + |g|, h)
    ensures var p := |a| + |b| + |c| + |d| + |e| + |g| + |h|; p <= |f| && f[p..] == rest
  {
    hide At;
    var r5 := g + (h + rest);
    var r3 := d + (e + r5);
    var p, q := |a| + |b| + |c|, |a| + |b| + |c| + |d| + |e|;
    assert f[0..] == f;
    Next(f, 0, a, b + (c + r3));
    Next(f, |a|, b, c + r3);
    Next(f, |a| + |b|, c, r3);
    Next(f, p, d, e + r5);
    Next(f, p + |d|, e, r5);
    Next(f, q, g, h + rest);
    Next(f, q + |g|, h, rest);
  }

  /** The header: magic, format, version and checksum with their lengths, and the time. */
  lemma HeaderFields(m: ModelParams)
    ensures var f, v, c := SavedModel(m), |Kept(m.version)|, |Checksum(m)|;
      && WordAt(f, 0, 0x4D444C32) && WordAt(f, 4, 1)
      && NumberAt(f, 8, 2, v) && At(f, 10, Kept(m.version))
      && NumberAt(f, 10 + v, 2, c) && At(f, 12 + v, Checksum(m))
      && NumberAt(f, 12 + v + c, 8, m.trainedAt)
  {
    hide LeBytes, Le32, L1Bytes, BlobsBytes, Checksum, SavedModel, At, WordAt, NumberAt, Power256, Kept;
    HeaderPieces(m);
    Powers();
    var f, v, c := SavedModel(m), |Kept(m.version)|, |Checksum(m)|;
    WordPlaced(f, 0, 0x4D444C32);
    WordPlaced(f, 4, 1);
    NumberPlaced(f, 8, 2, v);
    NumberPlaced(f, 10 + v, 2, c);
    NumberPlaced(f, 12 + v + c, 8, m.trainedAt);
  }

  lemma HeaderPieces(m: ModelParams)
    ensures var f, v, c := SavedModel(m), |Kept(m.version)|, |Checksum(m)|;
      && At(f, 0, Le32(0x4D444C32)) && At(f, 4, Le32(1))
      && At(f, 8, LeBytes(v, 2)) && At(f, 10, Kept(m.version))
      && At(f, 10 + v, LeBytes(c, 2)) && At(f, 12 + v, Checksum(m))
      && At(f, 12 + v + c, LeBytes(m.trainedAt, 8))
      && Start(m) <= |f| && f[Start(m)..] == L1Bytes(m) + (LeBytes(|m.l2|, 4) + BlobsBytes(m.l2))
  {
    hide LeBytes, Le32, L1Bytes, BlobsBytes, Checksum, SavedModel, At, Kept;
    FileIs(m);
    var v, c := Kept(m.version), Checksum(m);
    SevenPieces(SavedModel(m), Le32(0x4D444C32), Le32(1), LeBytes(|v|, 2), v, LeBytes(|c|, 2), c, LeBytes(m.trainedAt, 8),
                L1Bytes(m) + (LeBytes(|m.l2|, 4) + BlobsBytes(m.l2)));
  }

  /** The five arrays of the first level, in this order. */
  lemma L1Fields(m: ModelParams, f: Bytes, p: nat, rest: Bytes)
    requires m.WellSized() && p <= |f| && f[p..] == L1Bytes(m) + rest
    ensures WordsIn(f, p, m.l1A) && WordsIn(f, p + 128, m.l1B) && WordsIn(f, p + 8320, m.l1C)
    ensures WordsIn(f, p + 12416, m.l1D) && WordsIn(f, p + 12544, m.l1Delta)
  {
    hide WordBytes, WordsIn, At;
    var a, b, c, d, e := WordBytes(m.l1A), WordBytes(m.l1B), WordBytes(m.l1C), WordBytes(m.l1D), WordBytes(m.l1Delta);
    Assoc(a + b + c + d, e, rest);
    Assoc(a + b + c, d, e + rest);
    Assoc(a + b, c, d + (e + rest));
    Assoc(a, b, c + (d + (e + rest)));
    Next(f, p, a, b + (c + (d + (e + rest))));
    Next(f, p + 128, b, c + (d + (e + rest)));
    Next(f, p + 8320, c, d + (e + rest));
    Next(f, p + 12416, d, e + rest);
    Next(f, p + 12544, e, rest);
    WordsPlaced(f, p, m.l1A);
    WordsPlaced(f, p + 128, m.l1B);
    WordsPlaced(f, p + 8320, m.l1C);
    WordsPlaced(f, p + 12416, m.l1D);
    WordsPlaced(f, p + 12544, m.l1Delta);
  }

  /** The blobs of the second level, one after the other. */
  lemma {:induction false} BlobsPlaced(blobs: seq<seq<bv32>>, f: Bytes, p: nat, k: nat)
    requires (forall i :: 0 <= i < |blobs| ==> |blobs[i]| == 3136) && k < |blobs|
    requires p <= |f| && f[p..] == BlobsBytes(blobs)
    ensures WordsIn(f, p + 12544 * k, blobs[k])
    decreases k
  {
    hide WordBytes, WordsIn, BlobsBytes, At;
    FirstBlob(blobs);
    Next(f, p, WordBytes(blobs[0]), BlobsBytes(blobs[1..]));
    if k == 0 {
      WordsPlaced(f, p, blobs[0]);
    } else {
      BlobsPlaced(blobs[1..], f, p + 12544, k - 1);
    }
  }

  lemma FirstBlob(blobs: seq<seq<bv32>>)
    requires blobs != []
    ensures BlobsBytes(blobs) == WordBytes(blobs[0]) + BlobsBytes(blobs[1..])
  {
    hide WordBytes;
  }

  /** The parameters: five arrays, the number of blobs modulo 2^32 and the blobs. The checksum is
      the hexadecimal hash of exactly the bytes of the arrays and of the blobs, as they lie in
      the file. */
  lemma ParamFields(m: ModelParams)
    requires m.WellSized()
    ensures var f, p := SavedModel(m), Start(m);
      && |f| == p + 20740 + 12544 * |m.l2|
      && WordsIn(f, p, m.l1A) && WordsIn(f, p + 128, m.l1B) && WordsIn(f, p + 8320, m.l1C)
      && WordsIn(f, p + 12416, m.l1D) && WordsIn(f, p + 12544, m.l1Delta)
      && NumberAt(f, p + 20736, 4, |m.l2| % 0x1_0000_0000)
      && (forall k :: 0 <= k < |m.l2| ==> WordsIn(f, p + 20740 + 12544 * k, m.l2[k]))
      && Checksum(m) == Hex(Hash(f[p..p + 20736] + f[p + 20740..]))
  {
    hide WordBytes, LeBytes, WordsIn, L1Bytes, BlobsBytes, Checksum, SavedModel, Hash, Hex, At, NumberAt, Power256, Start;
    ChecksumIs(m);
    ParamPieces(m);
    var f, p := SavedModel(m), Start(m);
    L1Fields(m, f, p, LeBytes(|m.l2|, 4) + BlobsBytes(m.l2));
    NumberPlaced(f, p + 20736, 4, |m.l2|);
    Power4();
    forall k | 0 <= k < |m.l2| ensures WordsIn(f, p + 20740 + 12544 * k, m.l2[k]) {
      BlobsPlaced(m.l2, f, p + 20740, k);
    }
  }

  lemma ParamPieces(m: ModelParams)
    requires m.WellSized()
    ensures var f, p := SavedModel(m), Start(m);
      && |f| == p + 20740 + 12544 * |m.l2|
      && f[p..] == L1Bytes(m) + (LeBytes(|m.l2|, 4) + BlobsBytes(m.l2))
      && f[p..p + 20736] == L1Bytes(m) && At(f, p + 20736, LeBytes(|m.l2|, 4)) && f[p + 20740..] == BlobsBytes(m.l2)
  {
    hide LeBytes, L1Bytes, BlobsBytes, Checksum, SavedModel, At, Start;
    HeaderPieces(m);
    ParamSizes(m);
    var f, p := SavedModel(m), Start(m);
    var n, l2 := LeBytes(|m.l2|, 4), BlobsBytes(m.l2);
    Next(f, p, L1Bytes(m), n + l2);
    Next(f, p + 20736, n, l2);
    AtIs(f, p, L1Bytes(m));
  }

  lemma AtIs(f: Bytes, p: nat, piece: Bytes)
    requires At(f, p, piece)
    ensures p + |piece| <= |f| && f[p..p + |piece|] == piece
  {}

  lemma ChecksumIs(m: ModelParams)
    ensures Checksum(m) == Hex(Hash(L1Bytes(m) + BlobsBytes(m.l2)))
  {}

  /** A layer's blob holds its five arrays in this order. */
  lemma BlobFields(p: LayerParams)
    requires p.Shaped()
    ensures var b := BlobFromParams(p);
      && |b| == 3136 && b[..32] == p.aLog && b[32..1056] == p.bProj && b[1056..2080] == p.cProj
      && b[2080..2112] == p.dSkip && b[2112..] == p.deltaProj
  {}

  // ---- The hash and its text ----

  /** The test values of appendix C of draft-eastlake-fnv for "", "a" and "foobar". */
  lemma KnownHashes()
    ensures Hash([]) == 0xCBF29CE484222325
    ensures Hash([0x61]) == 0xAF63DC4C8601EC8C
    ensures Hash([0x66, 0x6F, 0x6F, 0x62, 0x61, 0x72]) == 0x85944171F73967E8
  {
    hide MixByte, Hash;
    KnownSteps();
    var s1, s2, s3: Bytes := [0x66], [0x66, 0x6F], [0x66, 0x6F, 0x6F];
    var s4: Bytes, s5: Bytes := [0x66, 0x6F, 0x6F, 0x62], [0x66, 0x6F, 0x6F, 0x62, 0x61];
    var s0: Bytes := [];
    HashSnoc(s0, 0x61);
    HashSnoc(s0, 0x66);
    HashSnoc(s1, 0x6F);
    HashSnoc(s2, 0x6F);
    HashSnoc(s3, 0x62);
    HashSnoc(s4, 0x61);
    HashSnoc(s5, 0x72);
    assert s0 + [0x61] == [0x61] && s0 + [0x66] == s1;
    assert s1 + [0x6F] == s2 && s2 + [0x6F] == s3 && s3 + [0x62] == s4 && s4 + [0x61] == s5;
    assert s5 + [0x72] == [0x66, 0x6F, 0x6F, 0x62, 0x61, 0x72];
  }

  lemma HashSnoc(s: Bytes, b: bv8)
    ensures Hash(s + [b]) == MixByte(Hash(s), b) && Hash([]) == OFFSET_BASIS
  {
    hide MixByte;
    FoldSnoc(MixByte, OFFSET_BASIS, s, b);
  }

  lemma KnownSteps()
    ensures MixByte(0xCBF29CE484222325, 0x61) == 0xAF63DC4C8601EC8C
    ensures MixByte(MixByte(MixByte(MixByte(MixByte(MixByte(0xCBF29CE484222325, 0x66), 0x6F), 0x6F), 0x62), 0x61), 0x72)
         == 0x85944171F73967E8
  {}

  /** The digit that a character of lower-case hexadecimal stands for. */
  function DigitValue(b: bv8): bv64 {
    if 48 <= b <= 57 then (b - 48) as bv64 else if 97 <= b <= 102 then (b - 87) as bv64 else 0
  }

  function HexValue(s: Bytes): bv64
    decreases |s|
  {
    if s == [] then 0 else (HexValue(s[..|s| - 1]) << 4) | DigitValue(s[|s| - 1])
  }

  lemma HexValueSnoc(s: Bytes, b: bv8)
    ensures HexValue(s + [b]) == (HexValue(s) << 4) | DigitValue(b)
  {
    assert (s + [b])[..|s|] == s;
  }

  lemma {:induction false} LeadingZero(s: Bytes)
    requires s != [] && s[0] == 48
    ensures HexValue(s) == HexValue(s[1..])
    decreases |s|
  {
    hide DigitValue, HexValue;
    var n := |s| - 1;
    assert s == s[..n] + [s[n]];
    HexValueSnoc(s[..n], s[n]);
    if n == 0 {
      HexValueOfZero(s);
    } else {
      LeadingZero(s[..n]);
      assert s[..n][1..] == s[1..][..n - 1] && s[1..] == s[1..][..n - 1] + [s[n]];
      HexValueSnoc(s[1..][..n - 1], s[n]);
    }
  }

  lemma HexValueOfZero(s: Bytes)
    requires |s| == 1 && s[0] == 48
    ensures HexValue(s) == HexValue(s[1..])
  {}

  lemma {:induction false} DropZerosValue(s: Bytes)
    ensures HexValue(DropZeros(s)) == HexValue(s)
    decreases |s|
  {
    hide HexValue;
    if |s| > 1 && s[0] == 48 {
      LeadingZero(s);
      DropZerosValue(s[1..]);
    }
  }

  lemma {:induction false} DigitsValue(h: bv64, n: nat)
    requires Iterate(Upper, n, h) == 0
    ensures HexValue(Digits(h, n)) == h
    decreases n
  {
    hide Upper, Fnv.Digit, DigitValue, HexValue;
    if n == 0 {
      NoDigits();
    } else {
      DigitsValue(Upper(h), n - 1);
      HexValueSnoc(Digits(Upper(h), n - 1), Fnv.Digit(h));
      LastDigit(h);
    }
  }

  lemma NoDigits()
    ensures HexValue([]) == 0
  {}

  lemma LastDigit(h: bv64)
    ensures (Upper(h) << 4) | DigitValue(Fnv.Digit(h)) == h
  {
    DigitReads(h);
    assert ((h >> 4) << 4) | (h & 15) == h;
  }

  lemma DigitReads(h: bv64)
    ensures DigitValue(Fnv.Digit(h)) == h & 15
  {}

  lemma {:induction false} NoLeadingZero(s: Bytes)
    ensures |DropZeros(s)| > 1 ==> DropZeros(s)[0] != 48
    decreases |s|
  {
    if |s| > 1 && s[0] == 48 {
      NoLeadingZero(s[1..]);
    }
  }

  /** The checksum's text, read as lower-case hexadecimal, is the hash; it has no leading zeros. */
  lemma HexReads(h: bv64)
    ensures HexValue(Hex(h)) == h
    ensures |Hex(h)| > 1 ==> Hex(h)[0] != 48
  {
    hide Upper, Digits, HexValue;
    NoLeadingZero(Digits(h, 16));
    SixteenUppers(h);
    DropZerosValue(Digits(h, 16));
    DigitsValue(h, 16);
  }
}
