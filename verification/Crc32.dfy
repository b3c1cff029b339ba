/** The CRC-32 of include/ids.hpp: the table-driven loop, the bit-serial division it
    stands for, and what the code detects. Bytes are `bv8`, the register is `bv32`. */
module Crc32 {
  import opened Folds

  type Bytes = seq<bv8>

  const ONES: bv32 := 0xFFFFFFFF

  function Xor(x: bv32, y: bv32): bv32 {
    x ^ y
  }

  function Mix(c: bv32, b: bv8): bv32 {
    c ^ (b as bv32)
  }

  function LowBit(w: bv32): bool {
    w & 1 == 1
  }

  function Half(w: bv32): bv32 {
    w >> 1
  }

  function Wide(b: bv8): bv32 {
    b as bv32
  }

  // ---- Reference: reflected division, one message bit at a time ----

  /** One step of the division: the bit shifted out, xored with the message bit, decides
      whether the polynomial 0xEDB88320 is subtracted. */
  function SerialStep(c: bv32, bit: bool): bv32 {
    if (c & 1 == 1) != bit then (c >> 1) ^ 0xEDB88320 else c >> 1
  }

  /** The bits of a byte, least significant first. */
  function BitsOf(b: bv8): seq<bool> {
    Unfold(LowBit, Half, 8, Wide(b))
  }

  /** The CRC of section 8 of RFC 1952: division of the message bits, the register
      inverted before and after. */
  function BitSerialCrc(data: Bytes, init: bv32): bv32 {
    Xor(Fold(SerialStep, Xor(init, ONES), FlatMap(BitsOf, data)), ONES)
  }

  // ---- The same division eight bits at a time ----

  function Shift1(c: bv32): bv32 {
    if c & 1 == 1 then (c >> 1) ^ 0xEDB88320 else c >> 1
  }

  function Shift8(c: bv32): bv32 {
    Iterate(Shift1, 8, c)
  }

  function ByteStep(c: bv32, b: bv8): bv32 {
    Shift8(Mix(c, b))
  }

  /** The register after a message, before the final inversion. */
  function Feed(c: bv32, data: Bytes): bv32 {
    Fold(ByteStep, c, data)
  }

  function Crc(data: Bytes, init: bv32): bv32 {
    Xor(Feed(Xor(init, ONES), data), ONES)
  }

  // ---- Bit-level facts ----

  lemma XorShuffle(x: bv32, y: bv32, p: bv32)
    ensures (x ^ y) ^ p == (x ^ p) ^ y
    ensures (x ^ y) ^ p == x ^ (y ^ p)
    ensures x ^ y == (x ^ p) ^ (y ^ p)
  {}

  lemma XorLow(x: bv32, y: bv32)
    ensures ((x ^ y) & 1 == 1) == ((x & 1 == 1) != (y & 1 == 1))
  {}

  lemma XorHigh(x: bv32, y: bv32)
    ensures (x ^ y) >> 1 == (x >> 1) ^ (y >> 1)
  {}

  lemma ShiftAbsorbsBit(c: bv32, w: bv32)
    ensures Shift1(Xor(c, w)) == Xor(SerialStep(c, LowBit(w)), Half(w))
  {
    XorLow(c, w);
    XorHigh(c, w);
    XorShuffle(c >> 1, w >> 1, 0xEDB88320);
  }

  lemma Shift1Linear(x: bv32, y: bv32)
    ensures Shift1(Xor(x, y)) == Xor(Shift1(x), Shift1(y))
  {
    XorLow(x, y);
    XorHigh(x, y);
    XorShuffle(x >> 1, y >> 1, 0xEDB88320);
  }

  lemma Shift1Injective(x: bv32, y: bv32)
    requires Shift1(x) == Shift1(y)
    ensures x == y
  {}

  // ---- Byte steps are serial steps ----

  lemma ByteDropsOut(b: bv8)
    ensures Iterate(Half, 8, Wide(b)) == 0
  {
    IterateEight(Half, Wide(b));
    EightHalves(b);
  }

  lemma EightHalves(b: bv8)
    ensures Half(Half(Half(Half(Half(Half(Half(Half(Wide(b))))))))) == 0
  {
    assert (b as bv32) >> 1 >> 1 >> 1 >> 1 >> 1 >> 1 >> 1 >> 1 == 0;
  }

  lemma XorZero(x: bv32)
    ensures Xor(x, 0) == x && Xor(0, x) == x
  {}

  lemma ShiftAbsorbsBits()
    ensures forall x, y :: Shift1(Xor(x, y)) == Xor(SerialStep(x, LowBit(y)), Half(y))
  {
    forall x, y
      ensures Shift1(Xor(x, y)) == Xor(SerialStep(x, LowBit(y)), Half(y))
    {
      hide *;
      ShiftAbsorbsBit(x, y);
    }
  }

  lemma MixIsXor(c: bv32, b: bv8)
    ensures Mix(c, b) == Xor(c, Wide(b))
  {}

  lemma ByteStepIsSerial(c: bv32, b: bv8)
    ensures ByteStep(c, b) == Fold(SerialStep, c, BitsOf(b))
  {
    hide Shift1, SerialStep, LowBit, Half, Xor, Wide, Mix;
    MixIsXor(c, b);
    ShiftAbsorbsBits();
    IterateAbsorbs(Shift1, SerialStep, Xor, LowBit, Half, 8, c, Wide(b));
    ByteDropsOut(b);
    XorZero(Fold(SerialStep, c, BitsOf(b)));
  }

  /** Byte-at-a-time and bit-serial division agree on every message and every seed. */
  lemma CrcIsBitSerial(data: Bytes, init: bv32)
    ensures Crc(data, init) == BitSerialCrc(data, init)
  {
    hide ByteStep, SerialStep, BitsOf, Xor;
    forall c, b
      ensures ByteStep(c, b) == Fold(SerialStep, c, BitsOf(b))
    {
      ByteStepIsSerial(c, b);
    }
    FoldRefines(ByteStep, SerialStep, BitsOf, Xor(init, ONES), data);
  }

  // ---- The table, sixteen literals to a row ----

  const ROW_0: seq<bv32> := [
    0x00000000, 0x77073096, 0xEE0E612C, 0x990951BA, 0x076DC419, 0x706AF48F, 0xE963A535, 0x9E6495A3,
    0x0EDB8832, 0x79DCB8A4, 0xE0D5E91E, 0x97D2D988, 0x09B64C2B, 0x7EB17CBD, 0xE7B82D07, 0x90BF1D91]
  const ROW_1: seq<bv32> := [
    0x1DB71064, 0x6AB020F2, 0xF3B97148, 0x84BE41DE, 0x1ADAD47D, 0x6DDDE4EB, 0xF4D4B551, 0x83D385C7,
    0x136C9856, 0x646BA8C0, 0xFD62F97A, 0x8A65C9EC, 0x14015C4F, 0x63066CD9, 0xFA0F3D63, 0x8D080DF5]
  const ROW_2: seq<bv32> := [
    0x3B6E20C8, 0x4C69105E, 0xD56041E4, 0xA2677172, 0x3C03E4D1, 0x4B04D447, 0xD20D85FD, 0xA50AB56B,
    0x35B5A8FA, 0x42B2986C, 0xDBBBC9D6, 0xACBCF940, 0x32D86CE3, 0x45DF5C75, 0xDCD60DCF, 0xABD13D59]
  const ROW_3: seq<bv32> := [
    0x26D930AC, 0x51DE003A, 0xC8D75180, 0xBFD06116, 0x21B4F4B5, 0x56B3C423, 0xCFBA9599, 0xB8BDA50F,
    0x2802B89E, 0x5F058808, 0xC60CD9B2, 0xB10BE924, 0x2F6F7C87, 0x58684C11, 0xC1611DAB, 0xB6662D3D]
  const ROW_4: seq<bv32> := [
    0x76DC4190, 0x01DB7106, 0x98D220BC, 0xEFD5102A, 0x71B18589, 0x06B6B51F, 0x9FBFE4A5, 0xE8B8D433,
    0x7807C9A2, 0x0F00F934, 0x9609A88E, 0xE10E9818, 0x7F6A0DBB, 0x086D3D2D, 0x91646C97, 0xE6635C01]
  const ROW_5: seq<bv32> := [
    0x6B6B51F4, 0x1C6C6162, 0x856530D8, 0xF262004E, 0x6C0695ED, 0x1B01A57B, 0x8208F4C1, 0xF50FC457,
    0x65B0D9C6, 0x12B7E950, 0x8BBEB8EA, 0xFCB9887C, 0x62DD1DDF, 0x15DA2D49, 0x8CD37CF3, 0xFBD44C65]
  const ROW_6: seq<bv32> := [
    0x4DB26158, 0x3AB551CE, 0xA3BC0074, 0xD4BB30E2, 0x4ADFA541, 0x3DD895D7, 0xA4D1C46D, 0xD3D6F4FB,
    0x4369E96A, 0x346ED9FC, 0xAD678846, 0xDA60B8D0, 0x44042D73, 0x33031DE5, 0xAA0A4C5F, 0xDD0D7CC9]
  const ROW_7: seq<bv32> := [
    0x5005713C, 0x270241AA, 0xBE0B1010, 0xC90C2086, 0x5768B525, 0x206F85B3, 0xB966D409, 0xCE61E49F,
    0x5EDEF90E, 0x29D9C998, 0xB0D09822, 0xC7D7A8B4, 0x59B33D17, 0x2EB40D81, 0xB7BD5C3B, 0xC0BA6CAD]
  const ROW_8: seq<bv32> := [
    0xEDB88320, 0x9ABFB3B6, 0x03B6E20C, 0x74B1D29A, 0xEAD54739, 0x9DD277AF, 0x04DB2615, 0x73DC1683,
    0xE3630B12, 0x94643B84, 0x0D6D6A3E, 0x7A6A5AA8, 0xE40ECF0B, 0x9309FF9D, 0x0A00AE27, 0x7D079EB1]
  const ROW_9: seq<bv32> := [
    0xF00F9344, 0x8708A3D2, 0x1E01F268, 0x6906C2FE, 0xF762575D, 0x806567CB, 0x196C3671, 0x6E6B06E7,
    0xFED41B76, 0x89D32BE0, 0x10DA7A5A, 0x67DD4ACC, 0xF9B9DF6F, 0x8EBEEFF9, 0x17B7BE43, 0x60B08ED5]
  const ROW_A: seq<bv32> := [
    0xD6D6A3E8, 0xA1D1937E, 0x38D8C2C4, 0x4FDFF252, 0xD1BB67F1, 0xA6BC5767, 0x3FB506DD, 0x48B2364B,
    0xD80D2BDA, 0xAF0A1B4C, 0x36034AF6, 0x41047A60, 0xDF60EFC3, 0xA867DF55, 0x316E8EEF, 0x4669BE79]
  const ROW_B: seq<bv32> := [
    0xCB61B38C, 0xBC66831A, 0x256FD2A0, 0x5268E236, 0xCC0C7795, 0xBB0B4703, 0x220216B9, 0x5505262F,
    0xC5BA3BBE, 0xB2BD0B28, 0x2BB45A92, 0x5CB36A04, 0xC2D7FFA7, 0xB5D0CF31, 0x2CD99E8B, 0x5BDEAE1D]
  const ROW_C: seq<bv32> := [
    0x9B64C2B0, 0xEC63F226, 0x756AA39C, 0x026D930A, 0x9C0906A9, 0xEB0E363F, 0x72076785, 0x05005713,
    0x95BF4A82, 0xE2B87A14, 0x7BB12BAE, 0x0CB61B38, 0x92D28E9B, 0xE5D5BE0D, 0x7CDCEFB7, 0x0BDBDF21]
  const ROW_D: seq<bv32> := [
    0x86D3D2D4, 0xF1D4E242, 0x68DDB3F8, 0x1FDA836E, 0x81BE16CD, 0xF6B9265B, 0x6FB077E1, 0x18B74777,
    0x88085AE6, 0xFF0F6A70, 0x66063BCA, 0x11010B5C, 0x8F659EFF, 0xF862AE69, 0x616BFFD3, 0x166CCF45]
  const ROW_E: seq<bv32> := [
    0xA00AE278, 0xD70DD2EE, 0x4E048354, 0x3903B3C2, 0xA7672661, 0xD06016F7, 0x4969474D, 0x3E6E77DB,
    0xAED16A4A, 0xD9D65ADC, 0x40DF0B66, 0x37D83BF0, 0xA9BCAE53, 0xDEBB9EC5, 0x47B2CF7F, 0x30B5FFE9]
  const ROW_F: seq<bv32> := [
    0xBDBDF21C, 0xCABAC28A, 0x53B39330, 0x24B4A3A6, 0xBAD03605, 0xCDD70693, 0x54DE5729, 0x23D967BF,
    0xB3667A2E, 0xC4614AB8, 0x5D681B02, 0x2A6F2B94, 0xB40BBE37, 0xC30C8EA1, 0x5A05DF1B, 0x2D02EF8D]
  const TABLE: seq<seq<bv32>> := [
    ROW_0, ROW_1, ROW_2, ROW_3, ROW_4, ROW_5, ROW_6, ROW_7,
    ROW_8, ROW_9, ROW_A, ROW_B, ROW_C, ROW_D, ROW_E, ROW_F]

  function Entry(i: bv8): bv32 {
    TABLE[(i >> 4) as nat][(i & 15) as nat]
  }

  /** A row is its first literal xored with the literals of row zero. */
  ghost predicate Coset(row: seq<bv32>) {
    && |row| == 16
    && row[1] == Xor(row[0], 0x77073096) && row[2] == Xor(row[0], 0xEE0E612C) && row[3] == Xor(row[0], 0x990951BA)
    && row[4] == Xor(row[0], 0x076DC419) && row[5] == Xor(row[0], 0x706AF48F) && row[6] == Xor(row[0], 0xE963A535)
    && row[7] == Xor(row[0], 0x9E6495A3) && row[8] == Xor(row[0], 0x0EDB8832) && row[9] == Xor(row[0], 0x79DCB8A4)
    && row[10] == Xor(row[0], 0xE0D5E91E) && row[11] == Xor(row[0], 0x97D2D988) && row[12] == Xor(row[0], 0x09B64C2B)
    && row[13] == Xor(row[0], 0x7EB17CBD) && row[14] == Xor(row[0], 0xE7B82D07) && row[15] == Xor(row[0], 0x90BF1D91)
  }

  lemma Rows01AreCosets()
    ensures Coset(ROW_0) && Coset(ROW_1)
  {}

  lemma Rows23AreCosets()
    ensures Coset(ROW_2) && Coset(ROW_3)
  {}

  lemma Rows45AreCosets()
    ensures Coset(ROW_4) && Coset(ROW_5)
  {}

  lemma Rows67AreCosets()
    ensures Coset(ROW_6) && Coset(ROW_7)
  {}

  lemma Rows89AreCosets()
    ensures Coset(ROW_8) && Coset(ROW_9)
  {}

  lemma RowsABAreCosets()
    ensures Coset(ROW_A) && Coset(ROW_B)
  {}

  lemma RowsCDAreCosets()
    ensures Coset(ROW_C) && Coset(ROW_D)
  {}

  lemma RowsEFAreCosets()
    ensures Coset(ROW_E) && Coset(ROW_F)
  {}

  function EightShifts(c: bv32): bv32 {
    Shift1(Shift1(Shift1(Shift1(Shift1(Shift1(Shift1(Shift1(c))))))))
  }

  lemma LowNibbles()
    ensures EightShifts(0x0) == 0x00000000
    ensures EightShifts(0x1) == 0x77073096
    ensures EightShifts(0x2) == 0xEE0E612C
    ensures EightShifts(0x3) == 0x990951BA
    ensures EightShifts(0x4) == 0x076DC419
    ensures EightShifts(0x5) == 0x706AF48F
    ensures EightShifts(0x6) == 0xE963A535
    ensures EightShifts(0x7) == 0x9E6495A3
    ensures EightShifts(0x8) == 0x0EDB8832
    ensures EightShifts(0x9) == 0x79DCB8A4
    ensures EightShifts(0xA) == 0xE0D5E91E
    ensures EightShifts(0xB) == 0x97D2D988
    ensures EightShifts(0xC) == 0x09B64C2B
    ensures EightShifts(0xD) == 0x7EB17CBD
    ensures EightShifts(0xE) == 0xE7B82D07
    ensures EightShifts(0xF) == 0x90BF1D91
  {}

  lemma HighNibbles()
    ensures EightShifts(0x10) == 0x1DB71064
    ensures EightShifts(0x20) == 0x3B6E20C8
    ensures EightShifts(0x30) == 0x26D930AC
    ensures EightShifts(0x40) == 0x76DC4190
    ensures EightShifts(0x50) == 0x6B6B51F4
    ensures EightShifts(0x60) == 0x4DB26158
    ensures EightShifts(0x70) == 0x5005713C
    ensures EightShifts(0x80) == 0xEDB88320
    ensures EightShifts(0x90) == 0xF00F9344
    ensures EightShifts(0xA0) == 0xD6D6A3E8
    ensures EightShifts(0xB0) == 0xCB61B38C
    ensures EightShifts(0xC0) == 0x9B64C2B0
    ensures EightShifts(0xD0) == 0x86D3D2D4
    ensures EightShifts(0xE0) == 0xA00AE278
    ensures EightShifts(0xF0) == 0xBDBDF21C
  {}

  lemma Row0Divides(lo: bv8)
    requires lo < 16
    ensures ROW_0[lo as nat] == EightShifts(Wide(lo))
  {
    hide EightShifts;
    LowNibbles();
    match lo
    case 0 => case 1 => case 2 => case 3 => case 4 => case 5 => case 6 => case 7 =>
    case 8 => case 9 => case 10 => case 11 => case 12 => case 13 => case 14 => case _ =>
  }

  lemma RowIsCosetOfItsHead(hi: bv8)
    requires hi < 16
    ensures Coset(TABLE[hi as nat]) && TABLE[hi as nat][0] == EightShifts(Wide(hi) << 4)
  {
    hide EightShifts, Xor;
    LowNibbles();
    HighNibbles();
    Rows01AreCosets(); Rows23AreCosets(); Rows45AreCosets(); Rows67AreCosets();
    Rows89AreCosets(); RowsABAreCosets(); RowsCDAreCosets(); RowsEFAreCosets();
    hide Coset;
    match hi
    case 0 => case 1 => case 2 => case 3 => case 4 => case 5 => case 6 => case 7 =>
    case 8 => case 9 => case 10 => case 11 => case 12 => case 13 => case 14 => case _ =>
  }

  lemma CosetElement(row: seq<bv32>, k: nat)
    requires Coset(row) && k < 16
    ensures row[k] == Xor(row[0], ROW_0[k])
  {
    hide Xor;
    XorZero(row[0]);
  }

  /** Every one of the 256 literals is its index divided by the polynomial. */
  lemma EntryIsDivision(i: bv8)
    ensures Entry(i) == Shift8(Wide(i))
  {
    hide EightShifts, Shift1, Xor, Wide, Coset;
    var hi, lo := i >> 4, i & 15;
    RowIsCosetOfItsHead(hi);
    CosetElement(TABLE[hi as nat], lo as nat);
    Row0Divides(lo);
    IterateEight(Shift1, Wide(hi) << 4);
    IterateEight(Shift1, Wide(lo));
    EightShiftsAre8(Wide(hi) << 4);
    EightShiftsAre8(Wide(lo));
    Shift8Linear(Wide(hi) << 4, Wide(lo));
    NibblesJoin(i);
  }

  lemma EightShiftsAre8(c: bv32)
    ensures EightShifts(c) == Shift8(c)
  {
    hide Shift1;
    IterateEight(Shift1, c);
  }

  lemma NibblesJoin(i: bv8)
    ensures Xor(Wide(i >> 4) << 4, Wide(i & 15)) == Wide(i)
  {}

  lemma Shift8Linear(x: bv32, y: bv32)
    ensures Shift8(Xor(x, y)) == Xor(Shift8(x), Shift8(y))
  {
    forall a, b
      ensures Shift1(Xor(a, b)) == Xor(Shift1(a), Shift1(b))
    {
      hide *;
      Shift1Linear(a, b);
    }
    hide Shift1, Xor;
    IterateHomomorphic(Shift1, Xor, 8, x, y);
  }

  function LowPart(c: bv32, b: bv8): bv8 {
    ((c ^ (b as bv32)) & 0xFF) as bv8
  }

  function HighPart(c: bv32): bv32 {
    c >> 8
  }

  function Up(y: bv32): bv32 {
    y << 8
  }

  lemma MixSplits(c: bv32, b: bv8)
    ensures Mix(c, b) == Xor(Wide(LowPart(c, b)), Up(HighPart(c)))
  {}

  lemma HighPartIsSmall(c: bv32)
    ensures HighPart(c) < 0x1000000
  {}

  function Left(y: bv32, k: bv5): bv32 {
    y << k
  }

  /** Halving undoes one doubling; the counts are literals because variable shifts are slow. */
  lemma Halve8(y: bv32)
    requires y < 0x1000000
    ensures Shift1(Left(y, 8)) == Left(y, 7)
  {}

  lemma Halve7(y: bv32)
    requires y < 0x1000000
    ensures Shift1(Left(y, 7)) == Left(y, 6)
  {}

  lemma Halve6(y: bv32)
    requires y < 0x1000000
    ensures Shift1(Left(y, 6)) == Left(y, 5)
  {}

  lemma Halve5(y: bv32)
    requires y < 0x1000000
    ensures Shift1(Left(y, 5)) == Left(y, 4)
  {}

  lemma Halve4(y: bv32)
    requires y < 0x1000000
    ensures Shift1(Left(y, 4)) == Left(y, 3)
  {}

  lemma Halve3(y: bv32)
    requires y < 0x1000000
    ensures Shift1(Left(y, 3)) == Left(y, 2)
  {}

  lemma Halve2(y: bv32)
    requires y < 0x1000000
    ensures Shift1(Left(y, 2)) == Left(y, 1)
  {}

  lemma Halve1(y: bv32)
    requires y < 0x1000000
    ensures Shift1(Left(y, 1)) == Left(y, 0)
  {}

  lemma LeftEnds(y: bv32)
    ensures Up(y) == Left(y, 8) && Left(y, 0) == y
  {}

  /** A register whose low byte is clear just shifts. */
  lemma ShiftOut(y: bv32)
    requires y < 0x1000000
    ensures Shift8(Up(y)) == y
  {
    hide Shift1, Left, Up;
    LeftEnds(y);
    Halve8(y); Halve7(y); Halve6(y); Halve5(y);
    Halve4(y); Halve3(y); Halve2(y); Halve1(y);
    IterateEight(Shift1, Up(y));
  }

  /** The source's loop body is one byte of the division. */
  lemma TableStep(c: bv32, b: bv8)
    ensures Xor(Entry(LowPart(c, b)), HighPart(c)) == ByteStep(c, b)
  {
    hide Shift8, Entry, Xor, Wide, Mix, LowPart, HighPart, Up;
    var low, high := LowPart(c, b), HighPart(c);
    MixSplits(c, b);
    EntryIsDivision(low);
    Shift8Linear(Wide(low), Up(high));
    HighPartIsSmall(c);
    ShiftOut(high);
  }

  // ---- The loop of the source ----

  method Crc32Of(data: Bytes, init: bv32) returns (r: bv32)
    ensures r == Crc(data, init)
    ensures r == BitSerialCrc(data, init)
  {
    hide Entry, ByteStep, BitSerialCrc, Xor, LowPart, HighPart;
    var c := Xor(init, ONES);
    for i := 0 to |data|
      invariant c == Feed(Xor(init, ONES), data[..i])
    {
      TableStep(c, data[i]);
      FoldSnoc(ByteStep, Xor(init, ONES), data[..i], data[i]);
      assert data[..i + 1] == data[..i] + [data[i]];
      c := Xor(Entry(LowPart(c, data[i])), HighPart(c));
    }
    assert data[..|data|] == data;
    CrcIsBitSerial(data, init);
    return Xor(c, ONES);
  }

  lemma XorCommutes(x: bv32, y: bv32)
    ensures Xor(x, y) == Xor(y, x)
  {}

  lemma XorAssociates(x: bv32, y: bv32, z: bv32)
    ensures Xor(Xor(x, y), z) == Xor(x, Xor(y, z))
  {}

  lemma XorTwice(x: bv32, y: bv32)
    ensures Xor(Xor(x, y), y) == x
  {}

  /** The `init` argument resumes a checksum: the CRC of a concatenation is the CRC of the
      second part seeded with the CRC of the first. */
  lemma Streams(a: Bytes, b: Bytes, init: bv32)
    ensures Crc(a + b, init) == Crc(b, Crc(a, init))
  {
    hide Xor;
    FoldConcat(ByteStep, Xor(init, ONES), a, b);
    XorTwice(Feed(Xor(init, ONES), a), ONES);
  }

  // ---- What it detects ----

  lemma Shift8Injective(x: bv32, y: bv32)
    requires Shift8(x) == Shift8(y)
    ensures x == y
  {
    hide Shift1;
    Shift1KeepsAll();
    IterateInjective(Shift1, 8, x, y);
  }

  lemma Shift1KeepsAll()
    ensures forall x, y :: Shift1(x) == Shift1(y) ==> x == y
  {
    forall x, y | Shift1(x) == Shift1(y)
      ensures x == y
    {
      hide *;
      Shift1Injective(x, y);
    }
  }

  lemma MixInjective(x: bv32, y: bv32, b: bv8)
    requires Mix(x, b) == Mix(y, b)
    ensures x == y
  {}

  lemma ByteStepKeepsStates()
    ensures KeepsStates(ByteStep)
  {
    forall x, y, b | ByteStep(x, b) == ByteStep(y, b)
      ensures x == y
    {
      hide Mix, Shift8;
      Shift8Injective(Mix(x, b), Mix(y, b));
      MixInjective(x, y, b);
    }
  }

  /** A few bytes as one little-endian word. */
  function Pack(s: Bytes): bv32
    decreases |s|
  {
    if s == [] then 0 else Mix(Up(Pack(s[1..])), s[0])
  }

  function Small(w: bv32, n: nat): bool {
    (n == 0 ==> w == 0) && (n == 1 ==> w < 0x100) && (n == 2 ==> w < 0x10000) && (n == 3 ==> w < 0x1000000)
  }

  lemma {:induction false} PackIsSmall(s: Bytes)
    requires |s| <= 4
    ensures Small(Pack(s), |s|)
    decreases |s|
  {
    if s != [] {
      PackIsSmall(s[1..]);
      SmallGrows(Pack(s[1..]), s[0]);
    }
  }

  lemma SmallGrows(w: bv32, b: bv8)
    ensures w == 0 ==> Mix(Up(w), b) < 0x100
    ensures w < 0x100 ==> Mix(Up(w), b) < 0x10000
    ensures w < 0x10000 ==> Mix(Up(w), b) < 0x1000000
  {}

  lemma MixUpInjective(x: bv32, b: bv8, y: bv32, c: bv8)
    requires x < 0x1000000 && y < 0x1000000
    requires Mix(Up(x), b) == Mix(Up(y), c)
    ensures x == y && b == c
  {}

  lemma {:induction false} PackInjective(s: Bytes, t: Bytes)
    requires |s| == |t| <= 4
    requires Pack(s) == Pack(t)
    ensures s == t
    decreases |s|
  {
    hide Mix, Up;
    if s != [] {
      PackIsSmall(s[1..]);
      PackIsSmall(t[1..]);
      MixUpInjective(Pack(s[1..]), s[0], Pack(t[1..]), t[0]);
      PackInjective(s[1..], t[1..]);
      assert s == [s[0]] + s[1..] && t == [t[0]] + t[1..];
    }
  }

  lemma MixUp(c: bv32, y: bv32, b: bv8)
    ensures Xor(c, Mix(Up(y), b)) == Xor(Mix(c, b), Up(y))
  {
    hide *;
    MixIsXor(Up(y), b);
    MixIsXor(c, b);
    XorCommutes(Up(y), Wide(b));
    XorAssociates(c, Wide(b), Up(y));
  }

  /** Feeding up to four bytes is one shift of the register with the packed word. */
  lemma {:induction false} FeedIsOneShift(c: bv32, s: Bytes)
    requires |s| <= 4
    ensures Feed(c, s) == Iterate(Shift1, 8 * |s|, Xor(c, Pack(s)))
    decreases |s|
  {
    hide Mix, Up, Xor, Shift1;
    if s == [] {
      XorZero(c);
    } else {
      var w := Pack(s[1..]);
      PackIsSmall(s[1..]);
      MixUp(c, w, s[0]);
      Shift8Linear(Mix(c, s[0]), Up(w));
      ShiftOut(w);
      IterateAdd(Shift1, 8, 8 * |s[1..]|, Xor(c, Pack(s)));
      FeedIsOneShift(ByteStep(c, s[0]), s[1..]);
    }
  }

  lemma XorInjective(c: bv32, x: bv32, y: bv32)
    requires Xor(c, x) == Xor(c, y)
    ensures x == y
  {}

  /** From one register, different strings of one length up to four never meet. */
  lemma BurstShows(c: bv32, x: Bytes, y: Bytes)
    requires |x| == |y| <= 4
    requires Feed(c, x) == Feed(c, y)
    ensures x == y
  {
    hide Xor, Shift1, Pack;
    FeedIsOneShift(c, x);
    FeedIsOneShift(c, y);
    Shift1KeepsAll();
    IterateInjective(Shift1, 8 * |x|, Xor(c, Pack(x)), Xor(c, Pack(y)));
    XorInjective(c, Pack(x), Pack(y));
    PackInjective(x, y);
  }

  /** a and b have one length and agree outside the four bytes from offset k on. */
  ghost predicate DifferWithin(a: Bytes, b: Bytes, k: nat) {
    && |a| == |b|
    && (forall i :: 0 <= i < |a| && !(k <= i < k + 4) ==> a[i] == b[i])
  }

  /** Whatever the register, a change inside four consecutive bytes changes the result. */
  lemma FourBytesShow(c: bv32, a: Bytes, b: Bytes, k: nat)
    requires DifferWithin(a, b, k)
    ensures Feed(c, a) == Feed(c, b) <==> a == b
  {
    if Feed(c, a) == Feed(c, b) && k < |a| {
      hide ByteStep;
      var e := if k + 4 <= |a| then k + 4 else |a|;
      var p, x, y, t := a[..k], a[k..e], b[k..e], a[e..];
      assert a == p + x + t;
      assert b == p + y + t;
      FoldConcat(ByteStep, c, p + x, t);
      FoldConcat(ByteStep, c, p + y, t);
      ByteStepKeepsStates();
      FoldKeepsStates(ByteStep, Feed(c, p + x), Feed(c, p + y), t);
      FoldConcat(ByteStep, c, p, x);
      FoldConcat(ByteStep, c, p, y);
      BurstShows(Feed(c, p), x, y);
    }
  }

  /** Two strings that differ only inside four consecutive bytes have different CRCs. */
  lemma CrcDetectsFourByteChange(a: Bytes, b: Bytes, k: nat, init: bv32)
    requires DifferWithin(a, b, k)
    ensures Crc(a, init) == Crc(b, init) <==> a == b
  {
    hide Feed, Xor;
    FourBytesShow(Xor(init, ONES), a, b, k);
    if Crc(a, init) == Crc(b, init) {
      XorTwice(Feed(Xor(init, ONES), a), ONES);
      XorTwice(Feed(Xor(init, ONES), b), ONES);
    }
  }

  // ---- A message followed by its own CRC ----

  /** The register after a message and its stored CRC, whatever the message. */
  function Residue(): bv32 {
    Iterate(Shift1, 32, ONES)
  }

  /** Comparing a stored little-endian CRC with the computed one is comparing the register
      after both with a constant. */
  lemma TrailerIsResidue(data: Bytes, t: Bytes)
    requires |t| == 4
    ensures Pack(t) == Crc(data, 0) <==> Feed(ONES, data + t) == Residue()
  {
    hide Xor, Shift1, Pack, ByteStep;
    XorZero(ONES);
    var c := Feed(ONES, data);
    FoldConcat(ByteStep, ONES, data, t);
    FeedIsOneShift(c, t);
    XorTwice(c, ONES);
    XorTwice(Pack(t), c);
    XorCommutes(Pack(t), c);
    XorCommutes(ONES, c);
    XorTwice(ONES, c);
    if Feed(ONES, data + t) == Residue() {
      Shift1KeepsAll();
      IterateInjective(Shift1, 32, Xor(c, Pack(t)), ONES);
    }
  }
}
