// The examples of appendices A and B of FIPS 197: rounds of the cipher and words of the key expansion.
module AesVectors {
  import opened Bytes
  import opened CounterMode
  import opened AesField
  import opened AesRounds
  import opened KeySchedule

  // The bytes of the standard's S-box that the examples meet.
  predicate HasBytes(s: SBox) {
    && s.sub(0x08) == 0x30 && s.sub(0x09) == 0x01 && s.sub(0x13) == 0x7d && s.sub(0x14) == 0xfa
    && s.sub(0x19) == 0xd4 && s.sub(0x1b) == 0xaf && s.sub(0x1e) == 0x72 && s.sub(0x20) == 0xb7
    && s.sub(0x2a) == 0xe5 && s.sub(0x2b) == 0xf1 && s.sub(0x2e) == 0x31 && s.sub(0x38) == 0x07
    && s.sub(0x3c) == 0xeb && s.sub(0x3d) == 0x27 && s.sub(0x40) == 0x09 && s.sub(0x42) == 0x2c
    && s.sub(0x48) == 0x52 && s.sub(0x4f) == 0x84 && s.sub(0x59) == 0xcb && s.sub(0x67) == 0x85
    && s.sub(0x84) == 0x5f && s.sub(0x8b) == 0x3d && s.sub(0x8d) == 0x5d && s.sub(0x9a) == 0xb8
    && s.sub(0xa0) == 0xe0 && s.sub(0xa1) == 0x32 && s.sub(0xbe) == 0xae && s.sub(0xc3) == 0x2e
    && s.sub(0xc6) == 0xb4 && s.sub(0xcf) == 0x8a && s.sub(0xd2) == 0xb5 && s.sub(0xde) == 0x1d
    && s.sub(0xdf) == 0x9e && s.sub(0xe2) == 0x98 && s.sub(0xe3) == 0x11 && s.sub(0xe7) == 0x94
    && s.sub(0xe9) == 0x1e && s.sub(0xeb) == 0xe9 && s.sub(0xf2) == 0x89 && s.sub(0xf4) == 0xbf
    && s.sub(0xf8) == 0x41 && s.sub(0xfc) == 0xb0
  }

  const START: Block := [0x19, 0x3d, 0xe3, 0xbe, 0xa0, 0xf4, 0xe2, 0x2b, 0x9a, 0xc6, 0x8d, 0x2a, 0xe9, 0xf8, 0x48, 0x08]
  const SHIFTED: Block := [0xd4, 0xbf, 0x5d, 0x30, 0xe0, 0xb4, 0x52, 0xae, 0xb8, 0x41, 0x11, 0xf1, 0x1e, 0x27, 0x98, 0xe5]
  const MIXED: Block := [0x04, 0x66, 0x81, 0xe5, 0xe0, 0xcb, 0x19, 0x9a, 0x48, 0xf8, 0xd3, 0x7a, 0x28, 0x06, 0x26, 0x4c]
  const KEY1: Block := [0xa0, 0xfa, 0xfe, 0x17, 0x88, 0x54, 0x2c, 0xb1, 0x23, 0xa3, 0x39, 0x39, 0x2a, 0x6c, 0x76, 0x05]
  const NEXT: Block := [0xa4, 0x9c, 0x7f, 0xf2, 0x68, 0x9f, 0x35, 0x2b, 0x6b, 0x5b, 0xea, 0x43, 0x02, 0x6a, 0x50, 0x49]

  const LAST: Block := [0xeb, 0x40, 0xf2, 0x1e, 0x59, 0x2e, 0x38, 0x84, 0x8b, 0xa1, 0x13, 0xe7, 0x1b, 0xc3, 0x42, 0xd2]
  const LAST_SHIFTED: Block := [0xe9, 0x31, 0x7d, 0xb5, 0xcb, 0x32, 0x2c, 0x72, 0x3d, 0x2e, 0x89, 0x5f, 0xaf, 0x09, 0x07, 0x94]
  const KEY10: Block := [0xd0, 0x14, 0xf9, 0xa8, 0xc9, 0xee, 0x25, 0x89, 0xe1, 0x3f, 0x0c, 0xc8, 0xb6, 0x63, 0x0c, 0xa6]
  const OUTPUT: Block := [0x39, 0x25, 0x84, 0x1d, 0x02, 0xdc, 0x09, 0xfb, 0xdc, 0x11, 0x85, 0x97, 0x19, 0x6a, 0x0b, 0x32]

  // The first round of appendix B.
  lemma RoundExample(s: SBox)
    requires HasBytes(s)
    ensures AesEnc(s, START, KEY1) == NEXT
  {
    hide SubShift, MixColumns;
    ShiftExample(s);
    MixExample();
    KeyExample();
  }

  lemma ShiftExample(s: SBox)
    requires HasBytes(s)
    ensures SubShift(s, START) == SHIFTED
  {
  }

  lemma MixExample()
    ensures MixColumns(SHIFTED) == MIXED
  {
    hide MixColumn;
    MixColumnExamples();
  }

  lemma MixColumnExamples()
    ensures MixColumn(Column(0xd4, 0xbf, 0x5d, 0x30)) == Column(0x04, 0x66, 0x81, 0xe5)
    ensures MixColumn(Column(0xe0, 0xb4, 0x52, 0xae)) == Column(0xe0, 0xcb, 0x19, 0x9a)
    ensures MixColumn(Column(0xb8, 0x41, 0x11, 0xf1)) == Column(0x48, 0xf8, 0xd3, 0x7a)
    ensures MixColumn(Column(0x1e, 0x27, 0x98, 0xe5)) == Column(0x28, 0x06, 0x26, 0x4c)
  {
  }

  lemma KeyExample()
    ensures XorBlock(MIXED, KEY1) == NEXT
  {
    hide Plus;
    KeySums();
    XorIs(MIXED, KEY1, NEXT);
  }

  lemma KeySums()
    ensures Plus(MIXED[0], KEY1[0]) == NEXT[0] && Plus(MIXED[1], KEY1[1]) == NEXT[1] && Plus(MIXED[2], KEY1[2]) == NEXT[2] && Plus(MIXED[3], KEY1[3]) == NEXT[3]
    ensures Plus(MIXED[4], KEY1[4]) == NEXT[4] && Plus(MIXED[5], KEY1[5]) == NEXT[5] && Plus(MIXED[6], KEY1[6]) == NEXT[6] && Plus(MIXED[7], KEY1[7]) == NEXT[7]
    ensures Plus(MIXED[8], KEY1[8]) == NEXT[8] && Plus(MIXED[9], KEY1[9]) == NEXT[9] && Plus(MIXED[10], KEY1[10]) == NEXT[10] && Plus(MIXED[11], KEY1[11]) == NEXT[11]
    ensures Plus(MIXED[12], KEY1[12]) == NEXT[12] && Plus(MIXED[13], KEY1[13]) == NEXT[13] && Plus(MIXED[14], KEY1[14]) == NEXT[14] && Plus(MIXED[15], KEY1[15]) == NEXT[15]
  {
  }

  lemma XorIs(a: Block, b: Block, c: Block)
    requires forall i :: 0 <= i < 16 ==> Plus(a[i], b[i]) == c[i]
    ensures XorBlock(a, b) == c
  {
    hide Plus, XorBlock;
    forall i | 0 <= i < |c|
      ensures XorBlock(a, b)[i] == c[i]
    {
      XorByteAt(a, b, i);
    }
  }

  // And the last.
  lemma LastRoundExample(s: SBox)
    requires HasBytes(s)
    ensures SubShift(s, LAST) == LAST_SHIFTED && AesEncLast(s, LAST, KEY10) == OUTPUT
  {
    hide SubShift, XorBlock, Plus;
    LastShiftExample(s);
    LastSums();
    XorIs(LAST_SHIFTED, KEY10, OUTPUT);
  }

  lemma LastShiftExample(s: SBox)
    requires HasBytes(s)
    ensures SubShift(s, LAST) == LAST_SHIFTED
  {
  }

  lemma LastSums()
    ensures Plus(LAST_SHIFTED[0], KEY10[0]) == OUTPUT[0] && Plus(LAST_SHIFTED[1], KEY10[1]) == OUTPUT[1] && Plus(LAST_SHIFTED[2], KEY10[2]) == OUTPUT[2] && Plus(LAST_SHIFTED[3], KEY10[3]) == OUTPUT[3]
    ensures Plus(LAST_SHIFTED[4], KEY10[4]) == OUTPUT[4] && Plus(LAST_SHIFTED[5], KEY10[5]) == OUTPUT[5] && Plus(LAST_SHIFTED[6], KEY10[6]) == OUTPUT[6] && Plus(LAST_SHIFTED[7], KEY10[7]) == OUTPUT[7]
    ensures Plus(LAST_SHIFTED[8], KEY10[8]) == OUTPUT[8] && Plus(LAST_SHIFTED[9], KEY10[9]) == OUTPUT[9] && Plus(LAST_SHIFTED[10], KEY10[10]) == OUTPUT[10] && Plus(LAST_SHIFTED[11], KEY10[11]) == OUTPUT[11]
    ensures Plus(LAST_SHIFTED[12], KEY10[12]) == OUTPUT[12] && Plus(LAST_SHIFTED[13], KEY10[13]) == OUTPUT[13] && Plus(LAST_SHIFTED[14], KEY10[14]) == OUTPUT[14] && Plus(LAST_SHIFTED[15], KEY10[15]) == OUTPUT[15]
  {
  }

  const INPUT: Block := [0x32, 0x43, 0xf6, 0xa8, 0x88, 0x5a, 0x30, 0x8d, 0x31, 0x31, 0x98, 0xa2, 0xe0, 0x37, 0x07, 0x34]
  const KEY0: Block := [0x2b, 0x7e, 0x15, 0x16, 0x28, 0xae, 0xd2, 0xa6, 0xab, 0xf7, 0x15, 0x88, 0x09, 0xcf, 0x4f, 0x3c]

  // From the input through the first key and the first round, and from before the last round to the output.
  lemma CipherExample(s: SBox, keys: seq<Block>)
    requires HasBytes(s) && |keys| == 11 && keys[0] == KEY0 && keys[1] == KEY1 && keys[10] == KEY10
    ensures Rounds(AesCipher(s), keys, 0, INPUT) == START && Rounds(AesCipher(s), keys, 1, INPUT) == NEXT
    ensures forall b: Block :: Rounds(AesCipher(s), keys, 9, b) == LAST ==> Encrypt(AesCipher(s), keys, b) == OUTPUT
  {
    hide HasBytes, AesCipher, AesEnc, AesEncLast, XorBlock, Rounds, Encrypt;
    RoundExample(s);
    FirstSum();
    RoundsAre(s, keys, INPUT);
    forall b: Block | Rounds(AesCipher(s), keys, 9, b) == LAST
      ensures Encrypt(AesCipher(s), keys, b) == OUTPUT
    {
      LastRoundExample(s);
      EncryptIs(s, keys, b);
    }
  }

  lemma RoundsAre(s: SBox, keys: seq<Block>, b: Block)
    requires |keys| == 11
    ensures Rounds(AesCipher(s), keys, 0, b) == XorBlock(b, keys[0])
    ensures Rounds(AesCipher(s), keys, 1, b) == AesEnc(s, XorBlock(b, keys[0]), keys[1])
  {
    hide AesEnc, AesEncLast, XorBlock;
  }

  lemma EncryptIs(s: SBox, keys: seq<Block>, b: Block)
    requires |keys| == 11
    ensures Encrypt(AesCipher(s), keys, b) == AesEncLast(s, Rounds(AesCipher(s), keys, 9, b), keys[10])
  {
    hide AesEnc, AesEncLast, XorBlock, Rounds;
  }

  lemma FirstSum()
    ensures XorBlock(INPUT, KEY0) == START
  {
    hide XorBlock, Plus;
    FirstSums();
    XorIs(INPUT, KEY0, START);
  }

  lemma FirstSums()
    ensures Plus(INPUT[0], KEY0[0]) == START[0] && Plus(INPUT[1], KEY0[1]) == START[1] && Plus(INPUT[2], KEY0[2]) == START[2] && Plus(INPUT[3], KEY0[3]) == START[3]
    ensures Plus(INPUT[4], KEY0[4]) == START[4] && Plus(INPUT[5], KEY0[5]) == START[5] && Plus(INPUT[6], KEY0[6]) == START[6] && Plus(INPUT[7], KEY0[7]) == START[7]
    ensures Plus(INPUT[8], KEY0[8]) == START[8] && Plus(INPUT[9], KEY0[9]) == START[9] && Plus(INPUT[10], KEY0[10]) == START[10] && Plus(INPUT[11], KEY0[11]) == START[11]
    ensures Plus(INPUT[12], KEY0[12]) == START[12] && Plus(INPUT[13], KEY0[13]) == START[13] && Plus(INPUT[14], KEY0[14]) == START[14] && Plus(INPUT[15], KEY0[15]) == START[15]
  {
  }

  const KEY_128: seq<Byte> := [0x2b, 0x7e, 0x15, 0x16, 0x28, 0xae, 0xd2, 0xa6, 0xab, 0xf7, 0x15, 0x88, 0x09, 0xcf, 0x4f, 0x3c]
  const KEY_256: seq<Byte> :=
    [0x60, 0x3d, 0xeb, 0x10, 0x15, 0xca, 0x71, 0xbe, 0x2b, 0x73, 0xae, 0xf0, 0x85, 0x7d, 0x77, 0x81,
     0x1f, 0x35, 0x2c, 0x07, 0x3b, 0x61, 0x08, 0xd7, 0x2d, 0x98, 0x10, 0xa3, 0x09, 0x14, 0xdf, 0xf4]

  lemma KeyWords128()
    ensures WordAt(KEY_128, 0) == Word(0x2b, 0x7e, 0x15, 0x16) && WordAt(KEY_128, 1) == Word(0x28, 0xae, 0xd2, 0xa6)
    ensures WordAt(KEY_128, 2) == Word(0xab, 0xf7, 0x15, 0x88) && WordAt(KEY_128, 3) == Word(0x09, 0xcf, 0x4f, 0x3c)
  {
  }

  lemma KeyWords256()
    ensures WordAt(KEY_256, 0) == Word(0x60, 0x3d, 0xeb, 0x10) && WordAt(KEY_256, 1) == Word(0x15, 0xca, 0x71, 0xbe)
  {
  }

  lemma KeyWords256Next()
    ensures WordAt(KEY_256, 2) == Word(0x2b, 0x73, 0xae, 0xf0) && WordAt(KEY_256, 3) == Word(0x85, 0x7d, 0x77, 0x81)
  {
  }

  lemma KeyWords256Later()
    ensures WordAt(KEY_256, 4) == Word(0x1f, 0x35, 0x2c, 0x07) && WordAt(KEY_256, 5) == Word(0x3b, 0x61, 0x08, 0xd7)
    ensures WordAt(KEY_256, 6) == Word(0x2d, 0x98, 0x10, 0xa3) && WordAt(KEY_256, 7) == Word(0x09, 0x14, 0xdf, 0xf4)
  {
  }

  // The words after the key in appendix A.1.
  lemma Words128(s: SBox)
    requires HasBytes(s)
    ensures ScheduleWord(s, KEY_128, 4) == Word(0xa0, 0xfa, 0xfe, 0x17)
    ensures ScheduleWord(s, KEY_128, 5) == Word(0x88, 0x54, 0x2c, 0xb1)
    ensures ScheduleWord(s, KEY_128, 6) == Word(0x23, 0xa3, 0x39, 0x39)
    ensures ScheduleWord(s, KEY_128, 7) == Word(0x2a, 0x6c, 0x76, 0x05)
  {
    hide ScheduleWord, WordAt, XorWord;
    KeyWords128();
    RotatedExamples(s);
    FirstWords(s, KEY_128);
    EvenWord(s, KEY_128, 4);
    NextWord(s, KEY_128, 5);
    NextWord(s, KEY_128, 6);
    NextWord(s, KEY_128, 7);
    Sums128();
  }

  // And in appendix A.3.
  lemma Words256(s: SBox)
    requires HasBytes(s)
    ensures ScheduleWord(s, KEY_256, 8) == Word(0x9b, 0xa3, 0x54, 0x11)
    ensures ScheduleWord(s, KEY_256, 11) == Word(0x20, 0x67, 0xfc, 0xde)
    ensures ScheduleWord(s, KEY_256, 12) == Word(0xa8, 0xb0, 0x9c, 0x1a)
  {
    hide ScheduleWord, WordAt, XorWord;
    KeyWords256();
    KeyWords256Next();
    KeyWords256Later();
    RotatedExamples(s);
    FirstWords(s, KEY_256);
    EvenWord(s, KEY_256, 8);
    NextWord(s, KEY_256, 9);
    NextWord(s, KEY_256, 10);
    NextWord(s, KEY_256, 11);
    OddWord(s, KEY_256, 12);
    Sums256();
  }

  lemma RotatedExamples(s: SBox)
    requires HasBytes(s)
    ensures XorWord(SubWord(s, RotWord(Word(0x09, 0xcf, 0x4f, 0x3c))), Word(RoundConstant(0), 0, 0, 0)) == Word(0x8b, 0x84, 0xeb, 0x01)
    ensures XorWord(SubWord(s, RotWord(Word(0x09, 0x14, 0xdf, 0xf4))), Word(RoundConstant(0), 0, 0, 0)) == Word(0xfb, 0x9e, 0xbf, 0x01)
    ensures SubWord(s, Word(0x20, 0x67, 0xfc, 0xde)) == Word(0xb7, 0x85, 0xb0, 0x1d)
  {
  }

  lemma Sums128()
    ensures XorWord(Word(0x2b, 0x7e, 0x15, 0x16), Word(0x8b, 0x84, 0xeb, 0x01)) == Word(0xa0, 0xfa, 0xfe, 0x17)
    ensures XorWord(Word(0x28, 0xae, 0xd2, 0xa6), Word(0xa0, 0xfa, 0xfe, 0x17)) == Word(0x88, 0x54, 0x2c, 0xb1)
    ensures XorWord(Word(0xab, 0xf7, 0x15, 0x88), Word(0x88, 0x54, 0x2c, 0xb1)) == Word(0x23, 0xa3, 0x39, 0x39)
    ensures XorWord(Word(0x09, 0xcf, 0x4f, 0x3c), Word(0x23, 0xa3, 0x39, 0x39)) == Word(0x2a, 0x6c, 0x76, 0x05)
  {
  }

  lemma Sums256()
    ensures XorWord(Word(0x60, 0x3d, 0xeb, 0x10), Word(0xfb, 0x9e, 0xbf, 0x01)) == Word(0x9b, 0xa3, 0x54, 0x11)
    ensures XorWord(Word(0x15, 0xca, 0x71, 0xbe), Word(0x9b, 0xa3, 0x54, 0x11)) == Word(0x8e, 0x69, 0x25, 0xaf)
    ensures XorWord(Word(0x2b, 0x73, 0xae, 0xf0), Word(0x8e, 0x69, 0x25, 0xaf)) == Word(0xa5, 0x1a, 0x8b, 0x5f)
    ensures XorWord(Word(0x85, 0x7d, 0x77, 0x81), Word(0xa5, 0x1a, 0x8b, 0x5f)) == Word(0x20, 0x67, 0xfc, 0xde)
    ensures XorWord(Word(0x1f, 0x35, 0x2c, 0x07), Word(0xb7, 0x85, 0xb0, 0x1d)) == Word(0xa8, 0xb0, 0x9c, 0x1a)
  {
  }

  lemma FirstWords(s: SBox, key: seq<Byte>)
    requires |key| == 16 || |key| == 32
    ensures forall i: nat :: i < |key| / 4 ==> ScheduleWord(s, key, i) == WordAt(key, i)
  {
    hide WordAt;
  }
}
