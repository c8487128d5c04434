// The examples of sections 2.1.1 and 2.3.2 of RFC 8439: a quarter round, and a block.
module ChaChaVectors {
  import opened ChaCha20

  function Left16(w: Word): Word { (w << 16) | (w >> 16) }
  function Left12(w: Word): Word { (w << 12) | (w >> 20) }
  function Left8(w: Word): Word { (w << 8) | (w >> 24) }
  function Left7(w: Word): Word { (w << 7) | (w >> 25) }

  lemma LeftsAre(w: Word)
    ensures Rotl(w, 16) == Left16(w) && Rotl(w, 12) == Left12(w) && Rotl(w, 8) == Left8(w) && Rotl(w, 7) == Left7(w)
  {
  }

  // Section 2.1 with each shift written out.
  function Plain(q: Four): Four {
    var a := Add(q.a, q.b); var d := Left16(Xor(q.d, a));
    var c := Add(q.c, d);   var b := Left12(Xor(q.b, c));
    var a' := Add(a, b);    var d' := Left8(Xor(d, a'));
    var c' := Add(c, d');   var b' := Left7(Xor(b, c'));
    Four(a', b', c', d')
  }

  lemma QuarterIsPlain(q: Four)
    ensures Quarter(q) == Plain(q)
  {
    hide Left16, Left12, Left8, Left7, Rotl, Add, Xor;
    var a := Add(q.a, q.b);
    LeftsAre(Xor(q.d, a));
    var d := Rotl(Xor(q.d, a), 16);
    var c := Add(q.c, d);
    LeftsAre(Xor(q.b, c));
    var b := Rotl(Xor(q.b, c), 12);
    var a' := Add(a, b);
    LeftsAre(Xor(d, a'));
    var d' := Rotl(Xor(d, a'), 8);
    LeftsAre(Xor(b, Add(c, d')));
  }

  lemma QuarterExample()
    ensures Quarter(Four(0x11111111, 0x01020304, 0x9b8d6f43, 0x01234567)) == Four(0xea2a92f4, 0xcb1cf8ce, 0x4581472e, 0x5881c4bb)
  {
    hide Quarter;
    QuarterIsPlain(Four(0x11111111, 0x01020304, 0x9b8d6f43, 0x01234567));
  }

  const S0: State :=
    [0x61707865, 0x3320646e, 0x79622d32, 0x6b206574, 0x03020100, 0x07060504, 0x0b0a0908, 0x0f0e0d0c,
     0x13121110, 0x17161514, 0x1b1a1918, 0x1f1e1d1c, 0x00000001, 0x09000000, 0x4a000000, 0x00000000]
  const S1: State :=
    [0xabbaa25c, 0x1efa51ea, 0x7354fbdf, 0x83d2dc69, 0x3a465196, 0x1c7e64f6, 0xb12fb628, 0xf05b6976,
     0x6b3ca454, 0x08eb14b1, 0xbf8a9ac9, 0xe444df3b, 0xdec62ed2, 0x8862cc77, 0x6e35b345, 0x52a647f1]
  const S2: State :=
    [0xcd52e917, 0x85ab03b4, 0xb3457395, 0xf96de7dd, 0xc4b7cd22, 0x5c2e187a, 0xc95eb461, 0x316c801a,
     0x7bf7d740, 0x7eddd644, 0xf1a1bdf5, 0x761246ca, 0x6b0d58a3, 0x6798471a, 0xd737f167, 0xf173888d]
  const S3: State :=
    [0xe3e1111b, 0xa6291491, 0x5a82b80c, 0x4500fd45, 0xd65b5b5b, 0xf56af099, 0x4ccc8103, 0xc94d29e2,
     0xe67aec54, 0xf7a52d82, 0xdb470914, 0xdfb40f1d, 0x7be81c0d, 0x1d92d0fd, 0x13139f8c, 0x7a26ecaa]
  const S4: State :=
    [0xcf1a7584, 0x048927ec, 0x54051fda, 0xc244ff28, 0x901d2f40, 0x7974b81c, 0x378dcfb4, 0xcd47fd0e,
     0x2dafb216, 0x27c89cd6, 0xcd3c9aa0, 0x79fc89c7, 0x10aef18d, 0x16218765, 0x68f76705, 0x04d6ee22]
  const S5: State :=
    [0xa22695f2, 0xa908cf6c, 0xe6ae05b2, 0xfe0ff04b, 0x1ece4458, 0xe82b726f, 0x5a21ab90, 0x87698c64,
     0xf2d36da6, 0xf4dab980, 0x7baf5573, 0xa78c270d, 0x6fda6bf7, 0x65a4b0ce, 0x25e6d76e, 0x1b7b11ec]
  const S6: State :=
    [0x03a14032, 0x66b15927, 0x9d6b6b42, 0xb84c4109, 0xa7143ae0, 0xa09b33dd, 0xa5daaf88, 0x2fd91a73,
     0xc90c6b18, 0x5a202413, 0xc20e01b6, 0x72cd6b74, 0xba35d777, 0xb360f1bf, 0x8178315b, 0x2cd11b1a]
  const S7: State :=
    [0xfecd0838, 0x160ab468, 0x9a0ddf4e, 0xbac7154a, 0xcedf6624, 0xb11de6c4, 0xbd7810ef, 0xd22b5643,
     0x1d8a33ea, 0x87dc1ca9, 0x89bd34a5, 0x5505ef62, 0xa818b852, 0xb100446a, 0x9c1d70b1, 0xa1d1befa]
  const S8: State :=
    [0x9a2d3589, 0x0b23fc4e, 0x40af3b6b, 0xceea8144, 0x0a1bffc6, 0x5e5993f7, 0x9904c2e7, 0x0d334718,
     0xe46c6354, 0xc9503229, 0x04fef5aa, 0xf8933f72, 0x2687d476, 0x54e65231, 0x3594ffc5, 0x2b3bb2ca]
  const S9: State :=
    [0x85e7824a, 0x4940cd9e, 0xfbe7684b, 0x7335d03d, 0x1c133ea1, 0xbba40b0f, 0x9413992a, 0xa4ab2040,
     0xa3a66a86, 0xc0b4754f, 0x771b4ecb, 0x165151a1, 0xde008464, 0x34f0058b, 0x70846cfa, 0xa3271b09]
  const S10: State :=
    [0xc53318c5, 0xca325d96, 0x7e7d11cb, 0x3404e2ca, 0x26d7cf73, 0x6088d379, 0xc0f0e9bd, 0xe310cdb9,
     0xae2ca8db, 0x42f67c72, 0x71669aca, 0x975c171d, 0x9e5ec228, 0x7d85a9f3, 0x201d0756, 0x63fa6953]
  const S11: State :=
    [0x9950b826, 0xcac7ccc6, 0x84a67673, 0xdb3109a6, 0x2121065a, 0xc12bdadb, 0xcae3acd1, 0x594616cb,
     0x19078de2, 0x178ecc02, 0xe6adbdb2, 0x52a9d50e, 0x40ca72b3, 0x3b9bf852, 0x78690378, 0xe17d4902]
  const S12: State :=
    [0x04a3131a, 0x66176309, 0x0415bab1, 0x61b880a2, 0x36cc86c7, 0xbf8a4465, 0xf77dd720, 0xfc0bdc90,
     0x07d13aca, 0xeb0be9af, 0x61599491, 0x918512dc, 0x33b6686d, 0x795cc671, 0xc0049972, 0xa0a81bde]
  const S13: State :=
    [0x57c5e6da, 0x35ce46a8, 0x0c041bb9, 0xfa91df79, 0x8e85d82f, 0xb4819d06, 0xb63be200, 0xacd221e4,
     0x434b4749, 0x1d459c00, 0x111cfe2c, 0x55942604, 0x49ee03a6, 0xd11a5554, 0xa7202e04, 0x7d2215bc]
  const S14: State :=
    [0x9b70f51f, 0x7ea8ac11, 0x21e54da9, 0xca393b2f, 0x93b08686, 0x6a4c50ae, 0x19212a5a, 0x9b032958,
     0xd839165e, 0x4c06e28a, 0xd3fde99e, 0x26acc13d, 0xa609f555, 0x2c246549, 0x95151853, 0x2c847a0d]
  const S15: State :=
    [0xc0b18aee, 0x087445ba, 0x36e52ad9, 0xa777426a, 0xdeb54e9c, 0x802c883b, 0x06e86889, 0x3c002680,
     0xa82d65d4, 0x687f11eb, 0xe9d36207, 0x4242ddae, 0x4103c64e, 0x82816a91, 0xb584ca56, 0xfd0bd2b9]
  const S16: State :=
    [0xca5c85dd, 0x93a4f90e, 0xd9f0df58, 0x26dd82dd, 0x982563f8, 0x712aa9ff, 0x279a61e8, 0x970f72bd,
     0x1c25931a, 0x5180bb10, 0x779c27e7, 0x54077e08, 0xa9b751fb, 0x382f3ce2, 0x8db1757d, 0xcc38080b]
  const S17: State :=
    [0x765c6e9c, 0x5ab09b11, 0x3ee7da04, 0x37c31203, 0x9046ecaa, 0x7b88d882, 0xb9b577dd, 0x156de7ed,
     0x46fa091e, 0x5117e9b5, 0x862ff22b, 0xa3fcc7a6, 0x72a5aace, 0x5fa7f1c5, 0xda563e0a, 0x5263d7ca]
  const S18: State :=
    [0xb6b87de6, 0x9a016148, 0x93859815, 0x4915e6cc, 0xdc33c122, 0x98e18fa3, 0x5ffbe8fc, 0xf7154b8b,
     0x28c1fcb3, 0xc4b38f9d, 0x83e2f5d7, 0x7d24b98b, 0x21078b22, 0xb193e7a3, 0xb2f49389, 0x6cde6026]
  const S19: State :=
    [0x8a07ff15, 0x0cadc51c, 0x017c8da9, 0x4afbe5df, 0x913768fe, 0x442a0c0c, 0x598fe3bb, 0x47d18828,
     0x0a39aedc, 0xc1428029, 0x7b48135f, 0x5a5f1098, 0x2d4cfe3e, 0xe5466d1b, 0xe4ccdc13, 0x8ac92a18]
  const S20: State :=
    [0x837778ab, 0xe238d763, 0xa67ae21e, 0x5950bb2f, 0xc4f2d0c7, 0xfc62bb2f, 0x8fa018fc, 0x3f5ec7b7,
     0x335271c2, 0xf29489f3, 0xeabda8fc, 0x82e46ebd, 0xd19c12b4, 0xb04e16de, 0x9e83d0cb, 0x4e3c50a2]

  const BLOCK: State :=
    [0xe4e7f110, 0x15593bd1, 0x1fdd0f50, 0xc47120a3, 0xc7f4d1c7, 0x0368c033, 0x9aaa2204, 0x4e6cd4c3,
     0x466482d2, 0x09aa9f07, 0x05d7c214, 0xa2028bd9, 0xd19c12b5, 0xb94e16de, 0xe883d0cb, 0x4e3c50a2]


  // One quarter round towards t.
  lemma Towards(s: State, t: State, i: nat, j: nat, k: nat, l: nat)
    requires i < 16 && j < 16 && k < 16 && l < 16 && i != j && i != k && i != l && j != k && j != l && k != l
    requires Plain(Four(s[i], s[j], s[k], s[l])) == Four(t[i], t[j], t[k], t[l])
    ensures var r := QuarterRound(s, i, j, k, l);
            && r[i] == t[i] && r[j] == t[j] && r[k] == t[k] && r[l] == t[l]
            && forall m :: 0 <= m < 16 && m != i && m != j && m != k && m != l ==> r[m] == s[m]
  {
    hide Plain, Quarter;
    QuarterIsPlain(Four(s[i], s[j], s[k], s[l]));
  }

  lemma Columns(s: State, t: State)
    requires Plain(Four(s[0], s[4], s[8], s[12])) == Four(t[0], t[4], t[8], t[12])
    requires Plain(Four(s[1], s[5], s[9], s[13])) == Four(t[1], t[5], t[9], t[13])
    requires Plain(Four(s[2], s[6], s[10], s[14])) == Four(t[2], t[6], t[10], t[14])
    requires Plain(Four(s[3], s[7], s[11], s[15])) == Four(t[3], t[7], t[11], t[15])
    ensures ColumnRound(s) == t
  {
    hide Plain, QuarterRound;
    Towards(s, t, 0, 4, 8, 12);
    var a := QuarterRound(s, 0, 4, 8, 12);
    Towards(a, t, 1, 5, 9, 13);
    var b := QuarterRound(a, 1, 5, 9, 13);
    Towards(b, t, 2, 6, 10, 14);
    var c := QuarterRound(b, 2, 6, 10, 14);
    Towards(c, t, 3, 7, 11, 15);
  }

  lemma Diagonals(s: State, t: State)
    requires Plain(Four(s[0], s[5], s[10], s[15])) == Four(t[0], t[5], t[10], t[15])
    requires Plain(Four(s[1], s[6], s[11], s[12])) == Four(t[1], t[6], t[11], t[12])
    requires Plain(Four(s[2], s[7], s[8], s[13])) == Four(t[2], t[7], t[8], t[13])
    requires Plain(Four(s[3], s[4], s[9], s[14])) == Four(t[3], t[4], t[9], t[14])
    ensures DiagonalRound(s) == t
  {
    hide Plain, QuarterRound;
    Towards(s, t, 0, 5, 10, 15);
    var a := QuarterRound(s, 0, 5, 10, 15);
    Towards(a, t, 1, 6, 11, 12);
    var b := QuarterRound(a, 1, 6, 11, 12);
    Towards(b, t, 2, 7, 8, 13);
    var c := QuarterRound(b, 2, 7, 8, 13);
    Towards(c, t, 3, 4, 9, 14);
  }

  lemma Half1()
    ensures ColumnRound(S0) == S1
  {
    Columns(S0, S1);
  }

  lemma Half2()
    ensures DiagonalRound(S1) == S2
  {
    Diagonals(S1, S2);
  }

  lemma Half3()
    ensures ColumnRound(S2) == S3
  {
    Columns(S2, S3);
  }

  lemma Half4()
    ensures DiagonalRound(S3) == S4
  {
    Diagonals(S3, S4);
  }

  lemma Half5()
    ensures ColumnRound(S4) == S5
  {
    Columns(S4, S5);
  }

  lemma Half6()
    ensures DiagonalRound(S5) == S6
  {
    Diagonals(S5, S6);
  }

  lemma Half7()
    ensures ColumnRound(S6) == S7
  {
    Columns(S6, S7);
  }

  lemma Half8()
    ensures DiagonalRound(S7) == S8
  {
    Diagonals(S7, S8);
  }

  lemma Half9()
    ensures ColumnRound(S8) == S9
  {
    Columns(S8, S9);
  }

  lemma Half10()
    ensures DiagonalRound(S9) == S10
  {
    Diagonals(S9, S10);
  }

  lemma Half11()
    ensures ColumnRound(S10) == S11
  {
    Columns(S10, S11);
  }

  lemma Half12()
    ensures DiagonalRound(S11) == S12
  {
    Diagonals(S11, S12);
  }

  lemma Half13()
    ensures ColumnRound(S12) == S13
  {
    Columns(S12, S13);
  }

  lemma Half14()
    ensures DiagonalRound(S13) == S14
  {
    Diagonals(S13, S14);
  }

  lemma Half15()
    ensures ColumnRound(S14) == S15
  {
    Columns(S14, S15);
  }

  lemma Half16()
    ensures DiagonalRound(S15) == S16
  {
    Diagonals(S15, S16);
  }

  lemma Half17()
    ensures ColumnRound(S16) == S17
  {
    Columns(S16, S17);
  }

  lemma Half18()
    ensures DiagonalRound(S17) == S18
  {
    Diagonals(S17, S18);
  }

  lemma Half19()
    ensures ColumnRound(S18) == S19
  {
    Columns(S18, S19);
  }

  lemma Half20()
    ensures DiagonalRound(S19) == S20
  {
    Diagonals(S19, S20);
  }

  lemma TenRounds()
    ensures DoubleRounds(10, S0) == S20
  {
    hide ColumnRound, DiagonalRound, DoubleRounds;
    NoRounds(S0);
    Half1(); Half2(); OneMoreRound(0, S0);
    Half3(); Half4(); OneMoreRound(1, S0);
    Half5(); Half6(); OneMoreRound(2, S0);
    Half7(); Half8(); OneMoreRound(3, S0);
    Half9(); Half10(); OneMoreRound(4, S0);
    Half11(); Half12(); OneMoreRound(5, S0);
    Half13(); Half14(); OneMoreRound(6, S0);
    Half15(); Half16(); OneMoreRound(7, S0);
    Half17(); Half18(); OneMoreRound(8, S0);
    Half19(); Half20(); OneMoreRound(9, S0);
  }

  lemma NoRounds(s: State)
    ensures DoubleRounds(0, s) == s
  {
  }

  lemma Sums()
    ensures Add(S20[0], S0[0]) == BLOCK[0] && Add(S20[1], S0[1]) == BLOCK[1] && Add(S20[2], S0[2]) == BLOCK[2] && Add(S20[3], S0[3]) == BLOCK[3]
    ensures Add(S20[4], S0[4]) == BLOCK[4] && Add(S20[5], S0[5]) == BLOCK[5] && Add(S20[6], S0[6]) == BLOCK[6] && Add(S20[7], S0[7]) == BLOCK[7]
    ensures Add(S20[8], S0[8]) == BLOCK[8] && Add(S20[9], S0[9]) == BLOCK[9] && Add(S20[10], S0[10]) == BLOCK[10] && Add(S20[11], S0[11]) == BLOCK[11]
    ensures Add(S20[12], S0[12]) == BLOCK[12] && Add(S20[13], S0[13]) == BLOCK[13] && Add(S20[14], S0[14]) == BLOCK[14] && Add(S20[15], S0[15]) == BLOCK[15]
  {
  }

  lemma WordsAre(s: State, x: State, t: State)
    requires DoubleRounds(10, s) == x && forall j :: 0 <= j < 16 ==> Add(x[j], s[j]) == t[j]
    ensures BlockWords(s) == t
  {
    hide DoubleRounds, Add;
  }

  // The example's block, from its key, its nonce and the counter 1.
  lemma BlockExample()
    ensures BlockWords(S0) == BLOCK
  {
    hide DoubleRounds, BlockWords, Add;
    TenRounds();
    Sums();
    WordsAre(S0, S20, BLOCK);
  }

  // Its first and last bytes.
  lemma BytesExample()
    ensures KeyByte(S0, 0) == 0x10 && KeyByte(S0, 1) == 0xf1 && KeyByte(S0, 2) == 0xe7 && KeyByte(S0, 3) == 0xe4
    ensures KeyByte(S0, 4) == 0xd1 && KeyByte(S0, 63) == 0x4e
  {
    hide BlockWords, WordByte, KeyByte;
    BlockExample();
    BytesOfWords();
    FirstBytes(S0, BLOCK, 0); FirstBytes(S0, BLOCK, 1); FirstBytes(S0, BLOCK, 2); FirstBytes(S0, BLOCK, 3);
    FirstBytes(S0, BLOCK, 4); FirstBytes(S0, BLOCK, 63);
  }

  lemma FirstBytes(s: State, b: State, p: nat)
    requires BlockWords(s) == b && p < 64
    ensures KeyByte(s, p) == WordByte(b[p / 4], p % 4)
  {
    hide BlockWords, WordByte;
    assert s[12 := CounterAfter(s[12], 0)] == s;
  }

  lemma BytesOfWords()
    ensures WordByte(0xe4e7f110, 0) == 0x10 && WordByte(0xe4e7f110, 1) == 0xf1
    ensures WordByte(0xe4e7f110, 2) == 0xe7 && WordByte(0xe4e7f110, 3) == 0xe4
    ensures WordByte(0x15593bd1, 0) == 0xd1 && WordByte(0x4e3c50a2, 3) == 0x4e
  {
  }
}
