/** The CRC of a known message. */
module CrcValue {
  import opened Folds
  import opened Crc32

  lemma FeedSnoc(c: bv32, s: Bytes, b: bv8)
    ensures Feed(c, s + [b]) == ByteStep(Feed(c, s), b) && Feed(c, []) == c
  {
    hide ByteStep;
    FoldSnoc(ByteStep, c, s, b);
  }

  lemma NextRegister(c: bv32, b: bv8)
    ensures ByteStep(c, b) == EightShifts(Mix(c, b))
  {
    hide EightShifts;
    EightShiftsAre8(Mix(c, b));
  }

  /** The registers on the way. */
  lemma Registers()
    ensures EightShifts(Mix(0xFFFFFFFF, 0x31)) == 0x7C231048
    ensures EightShifts(Mix(0x7C231048, 0x32)) == 0xB0ACBB32
    ensures EightShifts(Mix(0xB0ACBB32, 0x33)) == 0x77B79C2D
    ensures EightShifts(Mix(0x77B79C2D, 0x34)) == 0x641C1F5C
    ensures EightShifts(Mix(0x641C1F5C, 0x35)) == 0x340AC5E3
    ensures EightShifts(Mix(0x340AC5E3, 0x36)) == 0xF68D2C9E
    ensures EightShifts(Mix(0xF68D2C9E, 0x37)) == 0xAFFC9660
    ensures EightShifts(Mix(0xAFFC9660, 0x38)) == 0x651F2550
    ensures EightShifts(Mix(0x651F2550, 0x39)) == 0x340BC6D9
  {}

  /** The customary check value of this CRC: that of the digits 1 to 9. */
  lemma CheckValue()
    ensures Crc([0x31, 0x32, 0x33, 0x34, 0x35, 0x36, 0x37, 0x38, 0x39], 0) == 0xCBF43926
  {
    hide ByteStep, EightShifts, Feed, Mix;
    Registers();
    var s0: Bytes, s1: Bytes, s2: Bytes := [], [0x31], [0x31, 0x32];
    var s3: Bytes, s4: Bytes := [0x31, 0x32, 0x33], [0x31, 0x32, 0x33, 0x34];
    var s5: Bytes, s6: Bytes := [0x31, 0x32, 0x33, 0x34, 0x35], [0x31, 0x32, 0x33, 0x34, 0x35, 0x36];
    var s7: Bytes := [0x31, 0x32, 0x33, 0x34, 0x35, 0x36, 0x37];
    var s8: Bytes := [0x31, 0x32, 0x33, 0x34, 0x35, 0x36, 0x37, 0x38];
    FeedSnoc(ONES, s0, 0x31);
    NextRegister(0xFFFFFFFF, 0x31);
    FeedSnoc(ONES, s1, 0x32);
    NextRegister(0x7C231048, 0x32);
    FeedSnoc(ONES, s2, 0x33);
    NextRegister(0xB0ACBB32, 0x33);
    FeedSnoc(ONES, s3, 0x34);
    NextRegister(0x77B79C2D, 0x34);
    FeedSnoc(ONES, s4, 0x35);
    NextRegister(0x641C1F5C, 0x35);
    FeedSnoc(ONES, s5, 0x36);
    NextRegister(0x340AC5E3, 0x36);
    FeedSnoc(ONES, s6, 0x37);
    NextRegister(0xF68D2C9E, 0x37);
    FeedSnoc(ONES, s7, 0x38);
    NextRegister(0xAFFC9660, 0x38);
    FeedSnoc(ONES, s8, 0x39);
    NextRegister(0x651F2550, 0x39);
    assert s0 + [0x31] == s1 && s1 + [0x32] == s2 && s2 + [0x33] == s3 && s3 + [0x34] == s4 && s4 + [0x35] == s5;
    assert s5 + [0x36] == s6 && s6 + [0x37] == s7 && s7 + [0x38] == s8;
    assert s8 + [0x39] == [0x31, 0x32, 0x33, 0x34, 0x35, 0x36, 0x37, 0x38, 0x39];
    assert Xor(0, ONES) == ONES && Xor(0x340BC6D9, ONES) == 0xCBF43926;
  }
}
