/** The checksum of include/ids_model.hpp: 64-bit FNV-1a printed in hexadecimal. */
module Fnv {
  import opened Folds
  import opened Crc32

  const OFFSET_BASIS: bv64 := 14695981039346656037

  /** One turn of the mixing loop (section 2 of draft-eastlake-fnv). */
  function MixByte(h: bv64, b: bv8): bv64 {
    Times(Blend(h, b))
  }

  function Blend(h: bv64, b: bv8): bv64 {
    h ^ (b as bv64)
  }

  function Times(x: bv64): bv64 {
    x * 1099511628211
  }

  function Untimes(x: bv64): bv64 {
    x * 0xCE965057AFF6957B
  }

  function Hash(data: Bytes): bv64 {
    Fold(MixByte, OFFSET_BASIS, data)
  }

  /** The prime is odd, so multiplication by it has an inverse modulo 2^64. */
  lemma PrimeInverse(x: bv64)
    ensures Untimes(x * 1099511628211) == x
  {}

  lemma TimesInjective(x: bv64, y: bv64)
    requires Times(x) == Times(y)
    ensures x == y
  {
    hide Untimes;
    PrimeInverse(x);
    PrimeInverse(y);
  }

  lemma BlendKeepsStates(h: bv64, h': bv64, b: bv8)
    requires Blend(h, b) == Blend(h', b)
    ensures h == h'
  {}

  lemma BlendKeepsBytes(h: bv64, b: bv8, b': bv8)
    requires Blend(h, b) == Blend(h, b')
    ensures b == b'
  {}

  lemma MixByteInjective(h: bv64, h': bv64, b: bv8, b': bv8)
    requires MixByte(h, b) == MixByte(h', b')
    ensures b == b' ==> h == h'
    ensures h == h' ==> b == b'
  {
    hide Blend, Times;
    TimesInjective(Blend(h, b), Blend(h', b'));
    if b == b' {
      BlendKeepsStates(h, h', b);
    }
    if h == h' {
      BlendKeepsBytes(h, b, b');
    }
  }

  lemma MixByteKeeps()
    ensures KeepsStates(MixByte) && KeepsElements(MixByte)
  {
    hide MixByte;
    forall h, h', b, b' | MixByte(h, b) == MixByte(h', b')
      ensures (b == b' ==> h == h') && (h == h' ==> b == b')
    {
      MixByteInjective(h, h', b, b');
    }
    assert forall h, h', b :: MixByte(h, b) == MixByte(h', b) ==> h == h';
    assert forall h, b, b' :: MixByte(h, b) == MixByte(h, b') ==> b == b';
  }

  /** One changed byte always changes the hash. */
  lemma HashDetectsOneByte(data: Bytes, i: nat, b: bv8)
    requires i < |data|
    ensures Hash(data[i := b]) == Hash(data) <==> b == data[i]
  {
    hide MixByte;
    var p, t := data[..i], data[i + 1..];
    assert data == p + [data[i]] + t;
    assert data[i := b] == p + [b] + t;
    MixByteKeeps();
    if Hash(data[i := b]) == Hash(data) {
      OneChangeShows(MixByte, OFFSET_BASIS, p, b, data[i], t);
    }
  }

  // ---- Hexadecimal text ----

  function Digit(h: bv64): bv8 {
    if h & 15 < 10 then ((h & 15) as bv8) + 48 else ((h & 15) as bv8) + 87
  }

  function Upper(h: bv64): bv64 {
    h >> 4
  }

  /** n digits, most significant first, zeros included. */
  function Digits(h: bv64, n: nat): (s: Bytes)
    ensures |s| == n
    decreases n
  {
    if n == 0 then [] else Digits(Upper(h), n - 1) + [Digit(h)]
  }

  /** std::hex prints no leading zeros, but at least one digit. */
  function DropZeros(s: Bytes): (r: Bytes)
    ensures |r| <= |s| && (s != [] ==> r != [])
    decreases |s|
  {
    if |s| > 1 && s[0] == 48 then DropZeros(s[1..]) else s
  }

  function Hex(h: bv64): (s: Bytes)
    ensures 1 <= |s| <= 16
  {
    DropZeros(Digits(h, 16))
  }

  lemma {:induction false} DropZerosInjective(s: Bytes, t: Bytes)
    requires |s| == |t| && DropZeros(s) == DropZeros(t)
    ensures s == t
    decreases |s|
  {
    if |s| > 1 {
      if s[0] == 48 && t[0] == 48 {
        DropZerosInjective(s[1..], t[1..]);
        assert s == [s[0]] + s[1..] && t == [t[0]] + t[1..];
      }
    }
  }

  lemma DigitAndUpper(h: bv64, h': bv64)
    requires Digit(h) == Digit(h') && Upper(h) == Upper(h')
    ensures h == h'
  {
    SameDigit(h, h');
    assert h == ((h >> 4) << 4) | (h & 15);
    assert h' == ((h' >> 4) << 4) | (h' & 15);
  }

  lemma SameDigit(h: bv64, h': bv64)
    requires Digit(h) == Digit(h')
    ensures h & 15 == h' & 15
  {}

  lemma {:induction false} DigitsInjective(h: bv64, h': bv64, n: nat)
    requires Digits(h, n) == Digits(h', n)
    requires Iterate(Upper, n, h) == Iterate(Upper, n, h')
    ensures h == h'
    decreases n
  {
    hide Digit, Upper;
    if n > 0 {
      var s, s' := Digits(h, n), Digits(h', n);
      assert s[..n - 1] == Digits(Upper(h), n - 1) && s'[..n - 1] == Digits(Upper(h'), n - 1);
      assert s[n - 1] == Digit(h) && s'[n - 1] == Digit(h');
      DigitsInjective(Upper(h), Upper(h'), n - 1);
      DigitAndUpper(h, h');
    }
  }

  lemma SixteenUppers(h: bv64)
    ensures Iterate(Upper, 16, h) == 0
  {
    hide Upper;
    IterateAdd(Upper, 8, 8, h);
    IterateEight(Upper, h);
    IterateEight(Upper, h >> 32);
    UpperSteps(h);
    UpperSteps(h >> 32);
    HighHalfOnly(h);
  }

  lemma UpperSteps(h: bv64)
    ensures Upper(h) == h >> 4 && Upper(h >> 4) == h >> 8 && Upper(h >> 8) == h >> 12 && Upper(h >> 12) == h >> 16
    ensures Upper(h >> 16) == h >> 20 && Upper(h >> 20) == h >> 24 && Upper(h >> 24) == h >> 28 && Upper(h >> 28) == h >> 32
  {}

  lemma HighHalfOnly(h: bv64)
    ensures (h >> 32) >> 32 == 0
  {}

  lemma HexInjective(h: bv64, h': bv64)
    requires Hex(h) == Hex(h')
    ensures h == h'
  {
    hide Upper, Digits, Digit;
    DropZerosInjective(Digits(h, 16), Digits(h', 16));
    SixteenUppers(h);
    SixteenUppers(h');
    DigitsInjective(h, h', 16);
  }
}
