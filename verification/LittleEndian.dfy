/** Little-endian fields as the binary formats write them: 32-bit words are opaque bit
    patterns, lengths and counters are natural numbers. */
module LittleEndian {
  import opened Crc32

  const LIMIT64: nat := 0x1_0000_0000_0000_0000

  type U64 = n: nat | n < LIMIT64

  /** IEEE 754 single precision: all exponent bits set means infinity or NaN. */
  predicate Finite(w: bv32) {
    w & 0x7F800000 != 0x7F800000
  }

  predicate AllFinite(ws: seq<bv32>) {
    forall i :: 0 <= i < |ws| ==> Finite(ws[i])
  }

  method WordsFinite(ws: seq<bv32>) returns (finite: bool)
    ensures finite == AllFinite(ws)
  {
    for k := 0 to |ws|
      invariant AllFinite(ws[..k])
    {
      if !Finite(ws[k]) {
        return false;
      }
    }
    return true;
  }

  // ---- 32-bit words ----

  function LowByte(w: bv32): bv8 {
    (w & 0xFF) as bv8
  }

  /** The n low bytes of w, least significant first. */
  function LowBytes(w: bv32, n: nat): (s: Bytes)
    ensures |s| == n
    decreases n
  {
    if n == 0 then [] else [LowByte(w)] + LowBytes(HighPart(w), n - 1)
  }

  function Le32(w: bv32): (s: Bytes)
    ensures |s| == 4
  {
    LowBytes(w, 4)
  }

  lemma Rejoin(w: bv32)
    ensures Mix(Up(HighPart(w)), LowByte(w)) == w
  {}

  lemma HighPartShrinks(w: bv32)
    ensures w < 0x100 ==> HighPart(w) == 0
    ensures w < 0x10000 ==> HighPart(w) < 0x100
    ensures w < 0x1000000 ==> HighPart(w) < 0x10000
    ensures HighPart(w) < 0x1000000
  {}

  lemma {:induction false} LowBytesRoundTrip(w: bv32, n: nat)
    requires n <= 4 && Small(w, n)
    ensures Pack(LowBytes(w, n)) == w
    decreases n
  {
    hide Mix, Up, HighPart;
    if n > 0 {
      HighPartShrinks(w);
      LowBytesRoundTrip(HighPart(w), n - 1);
      assert LowBytes(w, n)[1..] == LowBytes(HighPart(w), n - 1);
      Rejoin(w);
    }
  }

  lemma Le32RoundTrip(w: bv32)
    ensures Pack(Le32(w)) == w
  {
    LowBytesRoundTrip(w, 4);
  }

  lemma Le32Back(s: Bytes)
    requires |s| == 4
    ensures Le32(Pack(s)) == s
  {
    Le32RoundTrip(Pack(s));
    PackInjective(Le32(Pack(s)), s);
  }

  // ---- Arrays of words: one memcpy in the source ----

  function WordBytes(ws: seq<bv32>): (s: Bytes)
    ensures |s| == 4 * |ws|
    decreases |ws|
  {
    if ws == [] then [] else Le32(ws[0]) + WordBytes(ws[1..])
  }

  function BytesWords(s: Bytes, n: nat): (ws: seq<bv32>)
    requires |s| == 4 * n
    ensures |ws| == n
    decreases n
  {
    if n == 0 then [] else [Pack(s[..4])] + BytesWords(s[4..], n - 1)
  }

  lemma {:induction false} WordsRoundTrip(ws: seq<bv32>)
    ensures BytesWords(WordBytes(ws), |ws|) == ws
    decreases |ws|
  {
    if ws != [] {
      hide Pack, Le32;
      var s := WordBytes(ws);
      assert s[..4] == Le32(ws[0]) && s[4..] == WordBytes(ws[1..]);
      Le32RoundTrip(ws[0]);
      WordsRoundTrip(ws[1..]);
    }
  }

  lemma {:induction false} WordsBack(s: Bytes, n: nat)
    requires |s| == 4 * n
    ensures WordBytes(BytesWords(s, n)) == s
    decreases n
  {
    if n > 0 {
      hide Pack, Le32;
      Le32Back(s[..4]);
      WordsBack(s[4..], n - 1);
      assert s == s[..4] + s[4..];
      assert BytesWords(s, n)[1..] == BytesWords(s[4..], n - 1);
    }
  }

  lemma {:induction false} WordBytesConcat(a: seq<bv32>, b: seq<bv32>)
    ensures WordBytes(a + b) == WordBytes(a) + WordBytes(b)
    decreases |a|
  {
    if a == [] {
      assert a + b == b;
    } else {
      hide Le32;
      assert (a + b)[1..] == a[1..] + b;
      WordBytesConcat(a[1..], b);
    }
  }

  // ---- Unsigned integers of n bytes ----

  function Power256(n: nat): (p: nat)
    ensures p > 0
    decreases n
  {
    if n == 0 then 1 else 256 * Power256(n - 1)
  }

  // Bytes and numbers are converted bit by bit: the solver is slow and erratic on the built-in
  // conversions.

  function Flag(on: bool, w: bv8): bv8 {
    if on then w else 0
  }

  function Odd(x: nat): bool {
    x % 2 == 1
  }

  function Half(x: nat): nat {
    x / 2
  }

  function FromFlags(a: bool, b: bool, c: bool, d: bool, e: bool, f: bool, g: bool, h: bool): bv8 {
    Flag(a, 1) | Flag(b, 2) | Flag(c, 4) | Flag(d, 8) | Flag(e, 16) | Flag(f, 32) | Flag(g, 64) | Flag(h, 128)
  }

  /** The byte of the value x. */
  function ByteOf(x: nat): bv8 {
    var x1 := Half(x);
    var x2 := Half(x1);
    var x3 := Half(x2);
    var x4 := Half(x3);
    var x5 := Half(x4);
    var x6 := Half(x5);
    var x7 := Half(x6);
    FromFlags(Odd(x), Odd(x1), Odd(x2), Odd(x3), Odd(x4), Odd(x5), Odd(x6), Odd(x7))
  }

  function Has(b: bv8, w: bv8): bool {
    b & w != 0
  }

  /** The number whose lowest binary digit is `on`, above it v. */
  function Digit(on: bool, v: nat): nat {
    (if on then 1 else 0) + 2 * v
  }

  /** The value of a byte. */
  function ValueOf(b: bv8): nat {
    Digit(Has(b, 1), Digit(Has(b, 2), Digit(Has(b, 4), Digit(Has(b, 8),
    Digit(Has(b, 16), Digit(Has(b, 32), Digit(Has(b, 64), Digit(Has(b, 128), 0))))))))
  }

  lemma DigitBelow(on: bool, v: nat, m: nat)
    requires v < m
    ensures Digit(on, v) < 2 * m
  {}

  lemma ValueIsSmall(b: bv8)
    ensures ValueOf(b) < 256
  {
    hide Digit, Has;
    var v7 := Digit(Has(b, 128), 0);
    var v6 := Digit(Has(b, 64), v7);
    var v5 := Digit(Has(b, 32), v6);
    var v4 := Digit(Has(b, 16), v5);
    var v3 := Digit(Has(b, 8), v4);
    var v2 := Digit(Has(b, 4), v3);
    var v1 := Digit(Has(b, 2), v2);
    DigitBelow(Has(b, 128), 0, 1);
    DigitBelow(Has(b, 64), v7, 2);
    DigitBelow(Has(b, 32), v6, 4);
    DigitBelow(Has(b, 16), v5, 8);
    DigitBelow(Has(b, 8), v4, 16);
    DigitBelow(Has(b, 4), v3, 32);
    DigitBelow(Has(b, 2), v2, 64);
    DigitBelow(Has(b, 1), v1, 128);
  }

  lemma FlagsBack(a: bool, b: bool, c: bool, d: bool, e: bool, f: bool, g: bool, h: bool)
    ensures var w := FromFlags(a, b, c, d, e, f, g, h);
      && Has(w, 1) == a && Has(w, 2) == b && Has(w, 4) == c && Has(w, 8) == d
      && Has(w, 16) == e && Has(w, 32) == f && Has(w, 64) == g && Has(w, 128) == h
  {}

  lemma HalfBelow(x: nat, m: nat)
    requires x < 2 * m
    ensures x == Digit(Odd(x), Half(x)) && Half(x) < m
  {}

  lemma ByteBack(x: nat)
    requires x < 256
    ensures ValueOf(ByteOf(x)) == x
  {
    hide FromFlags, Odd, Half, Has, Digit;
    var x1 := Half(x);
    var x2 := Half(x1);
    var x3 := Half(x2);
    var x4 := Half(x3);
    var x5 := Half(x4);
    var x6 := Half(x5);
    var x7 := Half(x6);
    FlagsBack(Odd(x), Odd(x1), Odd(x2), Odd(x3), Odd(x4), Odd(x5), Odd(x6), Odd(x7));
    HalfBelow(x, 128);
    HalfBelow(x1, 64);
    HalfBelow(x2, 32);
    HalfBelow(x3, 16);
    HalfBelow(x4, 8);
    HalfBelow(x5, 4);
    HalfBelow(x6, 2);
    HalfBelow(x7, 1);
  }

  function LeBytes(x: nat, n: nat): (s: Bytes)
    ensures |s| == n
    decreases n
  {
    if n == 0 then [] else [ByteOf(x % 256)] + LeBytes(x / 256, n - 1)
  }

  function LeValue(s: Bytes): (x: nat)
    decreases |s|
  {
    if s == [] then 0 else ValueOf(s[0]) + 256 * LeValue(s[1..])
  }

  /** Writing n bytes keeps the value modulo 256^n, as a C++ narrowing cast does. */
  lemma {:induction false} LeTruncates(x: nat, n: nat)
    ensures LeValue(LeBytes(x, n)) == x % Power256(n)
    decreases n
  {
    hide ByteOf, ValueOf;
    if n > 0 {
      LeTruncates(x / 256, n - 1);
      ModSplit(x, Power256(n - 1));
      var rest := LeBytes(x / 256, n - 1);
      assert LeBytes(x, n) == [ByteOf(x % 256)] + rest;
      assert LeBytes(x, n)[1..] == rest;
      ByteBack(x % 256);
    }
  }

  lemma ModSplit(x: nat, p: nat)
    requires p > 0
    ensures x % (256 * p) == x % 256 + 256 * ((x / 256) % p)
  {
    var q, r := x / 256, x % 256;
    var k, m := q / p, q % p;
    Division(x, 256);
    Division(q, p);
    Regroup(p, k, m, r);
    Scaled(m, p, r);
    RemainderIs(x, 256 * p, k, 256 * m + r);
  }

  lemma Division(x: nat, d: nat)
    requires d > 0
    ensures x == d * (x / d) + x % d && x % d < d
  {}

  lemma Regroup(p: nat, k: nat, m: nat, r: nat)
    ensures 256 * (p * k + m) + r == (256 * p) * k + (256 * m + r)
  {}

  lemma Scaled(m: nat, p: nat, r: nat)
    requires m < p && r < 256
    ensures 256 * m + r < 256 * p
  {}

  lemma RemainderIs(x: nat, d: nat, k: nat, r: nat)
    requires d > 0 && x == d * k + r && r < d
    ensures x % d == r
  {
    var q, m := x / d, x % d;
    assert x == d * q + m;
    if q > k {
      Distribute(d, q, k);
      Multiple(d, q - k);
    } else if q < k {
      Distribute(d, k, q);
      Multiple(d, k - q);
    }
  }

  lemma Distribute(d: nat, a: nat, b: nat)
    ensures d * (a - b) == d * a - d * b
  {}

  lemma Multiple(d: nat, n: nat)
    requires n > 0
    ensures d * n >= d
  {}

  lemma {:induction false} LeValueBound(s: Bytes)
    ensures LeValue(s) < Power256(|s|)
    decreases |s|
  {
    hide ValueOf;
    if s != [] {
      ValueIsSmall(s[0]);
      LeValueBound(s[1..]);
    }
  }

  lemma Powers()
    ensures Power256(2) == 0x10000 && Power256(8) == LIMIT64
  {
    assert Power256(4) == 0x1_0000_0000;
    assert Power256(6) == 0x1_0000_0000_0000;
  }

  lemma Le64RoundTrip(x: U64)
    ensures LeValue(LeBytes(x, 8)) == x
  {
    hide LeBytes, LeValue;
    LeTruncates(x, 8);
    Powers();
  }

  /** Slicing a concatenation at its joint. */
  lemma Joint(a: Bytes, b: Bytes)
    ensures |a + b| == |a| + |b| && (a + b)[..|a|] == a && (a + b)[|a|..] == b
  {}
}
