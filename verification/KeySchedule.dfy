// The AES key schedule: the word recurrence of section 5.2 of FIPS 197, and the
// AESKEYGENASSIST form of it, four words at a time.
module KeySchedule {
  import opened Powers
  import opened Bytes
  import opened AesField
  import opened AesRounds

  // A word is four bytes, the first one the lowest of a register lane.
  datatype Word = Word(b0: Byte, b1: Byte, b2: Byte, b3: Byte)

  const ZERO := Word(0, 0, 0, 0)

  function XorWord(x: Word, y: Word): Word {
    Word(x.b0 ^ y.b0, x.b1 ^ y.b1, x.b2 ^ y.b2, x.b3 ^ y.b3)
  }

  function SubWord(s: SBox, w: Word): Word {
    Word(s.sub(w.b0), s.sub(w.b1), s.sub(w.b2), s.sub(w.b3))
  }

  function RotWord(w: Word): Word {
    Word(w.b1, w.b2, w.b3, w.b0)
  }

  // ----- the standard -----

  // x^j in GF(2^8).
  function RoundConstant(j: nat): Byte {
    if j == 0 then 1 else Double(RoundConstant(j - 1))
  }

  function WordAt(b: seq<Byte>, i: nat): Word
    requires 4 * i + 4 <= |b|
  {
    Word(b[4 * i], b[4 * i + 1], b[4 * i + 2], b[4 * i + 3])
  }

  // w[i] of the key expansion, Nk words of key.
  function ScheduleWord(s: SBox, key: seq<Byte>, i: nat): Word
    requires |key| == 16 || |key| == 32
  {
    var nk := |key| / 4;
    if i < nk then WordAt(key, i)
    else
      var temp := ScheduleWord(s, key, i - 1);
      var temp' := if i % nk == 0 then XorWord(SubWord(s, RotWord(temp)), Word(RoundConstant(i / nk - 1), 0, 0, 0))
                   else if nk > 6 && i % nk == 4 then SubWord(s, temp)
                   else temp;
      XorWord(ScheduleWord(s, key, i - nk), temp')
  }

  // ----- the instructions -----

  datatype Register = Register(w0: Word, w1: Word, w2: Word, w3: Word)

  function XorRegister(x: Register, y: Register): Register {
    Register(XorWord(x.w0, y.w0), XorWord(x.w1, y.w1), XorWord(x.w2, y.w2), XorWord(x.w3, y.w3))
  }

  // _mm_aeskeygenassist_si128
  function KeyGenAssist(s: SBox, x: Register, rcon: Byte): Register {
    Register(SubWord(s, x.w1), XorWord(RotWord(SubWord(s, x.w1)), Word(rcon, 0, 0, 0)),
             SubWord(s, x.w3), XorWord(RotWord(SubWord(s, x.w3)), Word(rcon, 0, 0, 0)))
  }

  // _mm_slli_si128 by four bytes.
  function UpOneWord(x: Register): Register {
    Register(ZERO, x.w0, x.w1, x.w2)
  }

  // One word in all four lanes: _mm_shuffle_epi32 by 0xff and by 0xaa.
  function Broadcast(w: Word): Register {
    Register(w, w, w, w)
  }

  // The shifts and XORs: each word becomes the sum of itself and those before it.
  function Ladder(k: Register): Register {
    var t1 := UpOneWord(k);
    var k1 := XorRegister(k, t1);
    var t2 := UpOneWord(t1);
    var k2 := XorRegister(k1, t2);
    XorRegister(k2, UpOneWord(t2))
  }

  function KeyStep(k: Register, assist: Register): Register {
    XorRegister(Ladder(k), Broadcast(assist.w3))
  }

  function KeyStepOdd(s: SBox, prevEven: Register, k: Register): Register {
    XorRegister(Ladder(k), Broadcast(KeyGenAssist(s, prevEven, 0).w2))
  }

  // ----- the ladder is a prefix sum -----

  lemma XorWordZero(w: Word)
    ensures XorWord(w, ZERO) == w
  {
  }

  lemma XorWordAssoc(x: Word, y: Word, z: Word)
    ensures XorWord(XorWord(x, y), z) == XorWord(x, XorWord(y, z))
  {
  }

  lemma LadderIsPrefixSum(k: Register)
    ensures Ladder(k) == Register(k.w0, XorWord(k.w1, k.w0), XorWord(XorWord(k.w2, k.w1), k.w0),
                                  XorWord(XorWord(XorWord(k.w3, k.w2), k.w1), k.w0))
  {
    hide XorWord;
    XorWordZero(k.w0);
    XorWordZero(XorWord(k.w1, k.w0));
    XorWordZero(XorWord(XorWord(k.w2, k.w1), k.w0));
  }

  // Each word of the next round key is the word four before it plus the word just made.
  lemma KeyStepWords(k: Register, a: Word)
    ensures var r := XorRegister(Ladder(k), Broadcast(a));
            r.w0 == XorWord(k.w0, a) && r.w1 == XorWord(k.w1, r.w0) &&
            r.w2 == XorWord(k.w2, r.w1) && r.w3 == XorWord(k.w3, r.w2)
  {
    hide XorWord, Ladder;
    LadderIsPrefixSum(k);
    XorWordAssoc(k.w1, k.w0, a);
    XorWordAssoc(XorWord(k.w2, k.w1), k.w0, a);
    XorWordAssoc(k.w2, k.w1, XorWord(k.w0, a));
    XorWordAssoc(XorWord(XorWord(k.w3, k.w2), k.w1), k.w0, a);
    XorWordAssoc(XorWord(k.w3, k.w2), k.w1, XorWord(k.w0, a));
    XorWordAssoc(k.w3, k.w2, XorWord(k.w1, XorWord(k.w0, a)));
  }

  // ----- four words of the schedule -----

  // The register holds words i to i + 3.
  ghost predicate Holds(s: SBox, key: seq<Byte>, i: nat, k: Register)
    requires |key| == 16 || |key| == 32
  {
    k.w0 == ScheduleWord(s, key, i) && k.w1 == ScheduleWord(s, key, i + 1) &&
    k.w2 == ScheduleWord(s, key, i + 2) && k.w3 == ScheduleWord(s, key, i + 3)
  }

  lemma InsideTheKey(i: nat, nk: nat)
    requires (nk == 4 || nk == 8) && i % 4 != 0
    ensures i % nk != 0 && i % nk != 4
  {
    if nk == 8 { Quotient(i, 4, 2 * (i / 8) + i % 8 / 4, i % 8 % 4); }
  }

  lemma NextWord(s: SBox, key: seq<Byte>, i: nat)
    requires |key| == 16 || |key| == 32
    requires i >= |key| / 4 && i % 4 != 0
    ensures ScheduleWord(s, key, i) == XorWord(ScheduleWord(s, key, i - |key| / 4), ScheduleWord(s, key, i - 1))
  {
    hide XorWord, SubWord, RoundConstant;
    var nk := |key| / 4;
    InsideTheKey(i, nk);
  }

  lemma NextPlaces(i: nat)
    requires i % 4 == 0
    ensures (i + 1) % 4 == 1 && (i + 2) % 4 == 2 && (i + 3) % 4 == 3
  {
    Quotient(i + 1, 4, i / 4, 1);
    Quotient(i + 2, 4, i / 4, 2);
    Quotient(i + 3, 4, i / 4, 3);
  }

  // The next four words follow from the four that are Nk back and the first of them.
  lemma FourWords(s: SBox, key: seq<Byte>, i: nat, k: Register, a: Word)
    requires |key| == 16 || |key| == 32
    requires i >= |key| / 4 && i % 4 == 0 && Holds(s, key, i - |key| / 4, k)
    requires ScheduleWord(s, key, i) == XorWord(k.w0, a)
    ensures Holds(s, key, i, XorRegister(Ladder(k), Broadcast(a)))
  {
    hide XorWord, Ladder, ScheduleWord, XorRegister, Broadcast;
    KeyStepWords(k, a);
    NextPlaces(i);
    NextWord(s, key, i + 1);
    NextWord(s, key, i + 2);
    NextWord(s, key, i + 3);
  }

  lemma RotSubCommute(s: SBox, w: Word)
    ensures RotWord(SubWord(s, w)) == SubWord(s, RotWord(w))
  {
  }

  lemma EvenWord(s: SBox, key: seq<Byte>, i: nat)
    requires |key| == 16 || |key| == 32
    requires i >= |key| / 4 && i % (|key| / 4) == 0
    ensures ScheduleWord(s, key, i) ==
            XorWord(ScheduleWord(s, key, i - |key| / 4),
                    XorWord(SubWord(s, RotWord(ScheduleWord(s, key, i - 1))), Word(RoundConstant(i / (|key| / 4) - 1), 0, 0, 0)))
  {
    hide XorWord, SubWord, RotWord, RoundConstant;
  }

  lemma MultipleOfFour(i: nat, nk: nat)
    requires (nk == 4 || nk == 8) && i % nk == 0
    ensures i % 4 == 0
  {
  }

  // An even step: RotWord, SubWord and the round constant.
  lemma EvenStep(s: SBox, key: seq<Byte>, i: nat, k: Register, last: Register, rcon: Byte)
    requires |key| == 16 || |key| == 32
    requires i >= |key| / 4 && i % (|key| / 4) == 0
    requires Holds(s, key, i - |key| / 4, k) && last.w3 == ScheduleWord(s, key, i - 1)
    requires rcon == RoundConstant(i / (|key| / 4) - 1)
    ensures Holds(s, key, i, KeyStep(k, KeyGenAssist(s, last, rcon)))
  {
    hide XorWord, SubWord, RotWord, Ladder, RoundConstant, ScheduleWord, Broadcast;
    EvenWord(s, key, i);
    MultipleOfFour(i, |key| / 4);
    RotSubCommute(s, last.w3);
    FourWords(s, key, i, k, KeyGenAssist(s, last, rcon).w3);
  }

  lemma OddWord(s: SBox, key: seq<Byte>, i: nat)
    requires |key| == 32 && i >= 8 && i % 8 == 4
    ensures i % 4 == 0
    ensures ScheduleWord(s, key, i) == XorWord(ScheduleWord(s, key, i - 8), SubWord(s, ScheduleWord(s, key, i - 1)))
  {
    hide XorWord, SubWord, RotWord, RoundConstant;
  }

  // The odd step of a 32-byte key: SubWord alone.
  lemma OddStep(s: SBox, key: seq<Byte>, i: nat, k: Register, even: Register)
    requires |key| == 32 && i >= 8 && i % 8 == 4
    requires Holds(s, key, i - 8, k) && even.w3 == ScheduleWord(s, key, i - 1)
    ensures Holds(s, key, i, KeyStepOdd(s, even, k))
  {
    hide XorWord, SubWord, RotWord, Ladder, RoundConstant, ScheduleWord, Broadcast;
    OddWord(s, key, i);
    FourWords(s, key, i, k, SubWord(s, even.w3));
  }

  // ----- the two schedules -----

  function RegisterBytes(k: Register): seq<Byte> {
    [k.w0.b0, k.w0.b1, k.w0.b2, k.w0.b3, k.w1.b0, k.w1.b1, k.w1.b2, k.w1.b3,
     k.w2.b0, k.w2.b1, k.w2.b2, k.w2.b3, k.w3.b0, k.w3.b1, k.w3.b2, k.w3.b3]
  }

  function LoadRegister(b: seq<Byte>): Register
    requires |b| >= 16
  {
    Register(WordAt(b, 0), WordAt(b, 1), WordAt(b, 2), WordAt(b, 3))
  }

  // The first n round keys have been stored.
  ghost predicate Stored(s: SBox, key: seq<Byte>, rk: seq<Byte>, n: nat)
    requires |key| == 16 || |key| == 32
  {
    16 * n <= |rk| && forall i :: 0 <= i < 4 * n ==> WordAt(rk, i) == ScheduleWord(s, key, i)
  }

  // ----- the stored bytes, without words -----

  // The key itself comes first.
  lemma StoredKey(s: SBox, key: seq<Byte>, rk: seq<Byte>, total: nat, i: nat)
    requires (|key| == 16 || |key| == 32) && Stored(s, key, rk, total) && |key| <= 16 * total && i < |key|
    ensures rk[i] == key[i]
  {
    hide RoundConstant, SubWord, RotWord;
    var w := i / 4;
    assert WordAt(rk, w) == ScheduleWord(s, key, w) == WordAt(key, w);
  }

  lemma StoredWord(s: SBox, key: seq<Byte>, rk: seq<Byte>, total: nat, i: nat)
    requires (|key| == 16 || |key| == 32) && Stored(s, key, rk, total) && i < 4 * total
    ensures 4 * i + 4 <= |rk|
    ensures ScheduleWord(s, key, i) == Word(rk[4 * i], rk[4 * i + 1], rk[4 * i + 2], rk[4 * i + 3])
  {
    hide ScheduleWord;
    assert WordAt(rk, i) == ScheduleWord(s, key, i);
  }

  function ByteOf(w: Word, b: nat): Byte
    requires b < 4
  {
    if b == 0 then w.b0 else if b == 1 then w.b1 else if b == 2 then w.b2 else w.b3
  }

  lemma XorByte(x: Word, y: Word, b: nat)
    requires b < 4
    ensures ByteOf(XorWord(x, y), b) == Plus(ByteOf(x, b), ByteOf(y, b))
  {
    hide XorWord, Plus;
    XorWordIs(x, y);
  }

  lemma XorWordIs(x: Word, y: Word)
    ensures XorWord(x, y) == Word(Plus(x.b0, y.b0), Plus(x.b1, y.b1), Plus(x.b2, y.b2), Plus(x.b3, y.b3))
  {
  }

  lemma PlusIs(a: Byte, b: Byte)
    ensures Plus(a, b) == a ^ b
  {
  }

  lemma StoredByte(s: SBox, key: seq<Byte>, rk: seq<Byte>, total: nat, i: nat, b: nat)
    requires (|key| == 16 || |key| == 32) && Stored(s, key, rk, total) && i < 4 * total && b < 4
    ensures 4 * i + b < |rk| && rk[4 * i + b] == ByteOf(ScheduleWord(s, key, i), b)
  {
    hide ScheduleWord, Stored;
    StoredWord(s, key, rk, total, i);
  }

  // Byte j of a round key but for its first word: the byte Nk words back and the byte a word back.
  lemma StoredLater(s: SBox, key: seq<Byte>, rk: seq<Byte>, total: nat, n: nat, w: nat, b: nat)
    requires (|key| == 16 || |key| == 32) && Stored(s, key, rk, total) && |key| <= 16 * n && n < total && 1 <= w < 4 && b < 4
    ensures var p := 16 * n + 4 * w + b; p < |rk| && rk[p] == rk[p - |key|] ^ rk[p - 4]
  {
    hide ScheduleWord, Stored, XorWord, ByteOf, Plus;
    var i, nk := 4 * n + w, |key| / 4;
    Quotient(i, 4, n, w);
    NextWord(s, key, i);
    StoredByte(s, key, rk, total, i, b);
    StoredByte(s, key, rk, total, i - 1, b);
    StoredByte(s, key, rk, total, i - nk, b);
    XorByte(ScheduleWord(s, key, i - nk), ScheduleWord(s, key, i - 1), b);
    PlusIs(rk[4 * (i - nk) + b], rk[4 * (i - 1) + b]);
  }

  // The first word of a round key after RotWord: the last word of the one before it a byte to the left,
  // through the S-box, with the round constant on the first byte.
  lemma StoredRotated(s: SBox, key: seq<Byte>, rk: seq<Byte>, total: nat, n: nat)
    requires (|key| == 16 || |key| == 32) && Stored(s, key, rk, total) && |key| <= 16 * n && n < total
    requires n % (|key| / 16) == 0
    ensures var p := 16 * n;
            && p + 4 <= |rk|
            && rk[p] == rk[p - |key|] ^ (s.sub(rk[p - 3]) ^ RoundConstant(16 * n / |key| - 1))
            && rk[p + 1] == rk[p + 1 - |key|] ^ s.sub(rk[p - 2])
            && rk[p + 2] == rk[p + 2 - |key|] ^ s.sub(rk[p - 1])
            && rk[p + 3] == rk[p + 3 - |key|] ^ s.sub(rk[p - 4])
  {
    hide ScheduleWord, RoundConstant, Stored, XorWord, SubWord, RotWord, Plus;
    var i, nk := 4 * n, |key| / 4;
    KeyPlaces(n, nk);
    EvenWord(s, key, i);
    StoredWord(s, key, rk, total, i);
    StoredWord(s, key, rk, total, i - 1);
    StoredWord(s, key, rk, total, i - nk);
    var back, last, constant := ScheduleWord(s, key, i - nk), ScheduleWord(s, key, i - 1), RoundConstant(4 * n / nk - 1);
    RotatedBytes(s, back, last, constant);
    PlusIs(s.sub(last.b1), constant);
    PlusIs(back.b0, Plus(s.sub(last.b1), constant));
    PlusIs(back.b1, s.sub(last.b2));
    PlusIs(back.b2, s.sub(last.b3));
    PlusIs(back.b3, s.sub(last.b0));
  }

  lemma RotatedBytes(s: SBox, back: Word, last: Word, constant: Byte)
    ensures XorWord(back, XorWord(SubWord(s, RotWord(last)), Word(constant, 0, 0, 0))) ==
            Word(Plus(back.b0, Plus(s.sub(last.b1), constant)), Plus(back.b1, s.sub(last.b2)),
                 Plus(back.b2, s.sub(last.b3)), Plus(back.b3, s.sub(last.b0)))
  {
    ZeroBytes(s.sub(last.b2));
    ZeroBytes(s.sub(last.b3));
    ZeroBytes(s.sub(last.b0));
  }

  lemma KeyPlaces(n: nat, nk: nat)
    requires nk == 4 || nk == 8
    requires n % (nk / 4) == 0 && 4 * n >= nk
    ensures 4 * n % nk == 0 && 4 * n / nk == 16 * n / (4 * nk) && 4 * n / nk >= 1
  {
    var q := n / (nk / 4);
    Quotient(4 * n, nk, q, 0);
    Quotient(16 * n, 4 * nk, q, 0);
  }

  lemma ZeroBytes(b: Byte)
    ensures b ^ 0 == b
  {
  }

  // The first word of an odd round key of the longer key: the S-box alone.
  lemma StoredOdd(s: SBox, key: seq<Byte>, rk: seq<Byte>, total: nat, n: nat, j: nat)
    requires |key| == 32 && Stored(s, key, rk, total) && 2 <= n < total && n % 2 == 1 && j < 4
    ensures var p := 16 * n + j; p < |rk| && rk[p] == rk[p - 32] ^ s.sub(rk[p - 4])
  {
    hide ScheduleWord, Stored, XorWord, ByteOf, SubWord, Plus;
    var i := 4 * n;
    Quotient(i, 8, n / 2, 4);
    OddWord(s, key, i);
    StoredByte(s, key, rk, total, i, j);
    StoredByte(s, key, rk, total, i - 1, j);
    StoredByte(s, key, rk, total, i - 8, j);
    SubByte(s, ScheduleWord(s, key, i - 1), j);
    XorByte(ScheduleWord(s, key, i - 8), SubWord(s, ScheduleWord(s, key, i - 1)), j);
    PlusIs(rk[4 * (i - 8) + j], s.sub(rk[4 * (i - 1) + j]));
  }

  lemma SubByte(s: SBox, w: Word, b: nat)
    requires b < 4
    ensures ByteOf(SubWord(s, w), b) == s.sub(ByteOf(w, b))
  {
  }

  // Round key n stored after those before it.
  method StoreKey(ghost s: SBox, ghost key: seq<Byte>, rk: array<Byte>, n: nat, k: Register, ghost end: nat)
    requires |key| == 16 || |key| == 32
    requires Stored(s, key, rk[..], n) && Holds(s, key, 4 * n, k) && 16 * n + 16 <= end <= rk.Length
    modifies rk
    ensures Stored(s, key, rk[..], n + 1) && rk[end..] == old(rk[end..])
  {
    hide ScheduleWord;
    ghost var before := rk[..];
    StoreBytes(rk, 16 * n, RegisterBytes(k));
    StoredNext(s, key, before, rk[..], n, k);
    SuffixKept(before, rk[..], 16 * n + 16, end);
  }

  lemma SuffixKept(a: seq<Byte>, b: seq<Byte>, from: nat, end: nat)
    requires from <= end <= |a| && |a| == |b| && a[from..] == b[from..]
    ensures a[end..] == b[end..]
  {
    assert a[end..] == a[from..][end - from..] && b[end..] == b[from..][end - from..];
  }

  lemma StoredNext(s: SBox, key: seq<Byte>, before: seq<Byte>, rk: seq<Byte>, n: nat, k: Register)
    requires |key| == 16 || |key| == 32
    requires Stored(s, key, before, n) && Holds(s, key, 4 * n, k)
    requires |rk| == |before| && 16 * n + 16 <= |rk| && rk[..16 * n] == before[..16 * n]
    requires rk[16 * n..16 * n + 16] == RegisterBytes(k)
    ensures Stored(s, key, rk, n + 1)
  {
    hide ScheduleWord, WordAt;
    var q := rk[16 * n..16 * n + 16];
    forall i | 0 <= i < 4 * n
      ensures WordAt(rk, i) == WordAt(before, i)
    {
      WordInPrefix(rk, 16 * n, i);
      WordInPrefix(before, 16 * n, i);
    }
    WordInSlice(rk, n, 0);
    WordInSlice(rk, n, 1);
    WordInSlice(rk, n, 2);
    WordInSlice(rk, n, 3);
    WordsOfRegister(k);
  }

  lemma WordInPrefix(b: seq<Byte>, to: nat, i: nat)
    requires 4 * i + 4 <= to <= |b|
    ensures WordAt(b, i) == WordAt(b[..to], i)
  {
  }

  lemma WordInSlice(b: seq<Byte>, n: nat, i: nat)
    requires 16 * n + 16 <= |b| && i < 4
    ensures WordAt(b, 4 * n + i) == WordAt(b[16 * n..16 * n + 16], i)
  {
    assert 4 * (4 * n + i) == 16 * n + 4 * i;
  }

  lemma WordsOfRegister(k: Register)
    ensures var b := RegisterBytes(k);
            WordAt(b, 0) == k.w0 && WordAt(b, 1) == k.w1 && WordAt(b, 2) == k.w2 && WordAt(b, 3) == k.w3
  {
  }

  lemma RoundConstants()
    ensures RoundConstant(0) == 0x01 && RoundConstant(1) == 0x02 && RoundConstant(2) == 0x04 && RoundConstant(3) == 0x08
    ensures RoundConstant(4) == 0x10 && RoundConstant(5) == 0x20 && RoundConstant(6) == 0x40 && RoundConstant(7) == 0x80
    ensures RoundConstant(8) == 0x1b && RoundConstant(9) == 0x36
  {
    assert RoundConstant(1) == 0x02;
    assert RoundConstant(2) == 0x04;
    assert RoundConstant(3) == 0x08;
    assert RoundConstant(4) == 0x10;
    assert RoundConstant(5) == 0x20;
    assert RoundConstant(6) == 0x40;
    assert RoundConstant(7) == 0x80;
    assert RoundConstant(8) == 0x1b;
  }

  lemma LoadedKey(s: SBox, key: seq<Byte>)
    requires |key| == 16 || |key| == 32
    ensures Holds(s, key, 0, LoadRegister(key[..16]))
    ensures |key| == 32 ==> Holds(s, key, 4, LoadRegister(key[16..]))
  {
  }

  lemma StoredNone(s: SBox, key: seq<Byte>, rk: seq<Byte>)
    requires |key| == 16 || |key| == 32
    ensures Stored(s, key, rk, 0)
  {
  }

  // KEY128: round key n from the one before it.
  method Key128(s: SBox, ghost key: seq<Byte>, rk: array<Byte>, n: nat, k: Register, rcon: Byte,
                 ghost end: nat) returns (k': Register)
    requires |key| == 16 && n >= 1 && 16 * n + 16 <= end <= rk.Length
    requires Stored(s, key, rk[..], n) && Holds(s, key, 4 * n - 4, k) && rcon == RoundConstant(n - 1)
    modifies rk
    ensures Stored(s, key, rk[..], n + 1) && Holds(s, key, 4 * n, k') && rk[end..] == old(rk[end..])
  {
    hide ScheduleWord, Stored, RoundConstant, KeyGenAssist, KeyStep;
    EvenStep(s, key, 4 * n, k, k, rcon);
    k' := KeyStep(k, KeyGenAssist(s, k, rcon));
    StoreKey(s, key, rk, n, k', end);
  }

  // KEY256: round keys n and, but for the last step, n + 1.
  method Key256(s: SBox, ghost key: seq<Byte>, rk: array<Byte>, n: nat, a: Register, b: Register, rcon: Byte,
                 ghost end: nat)
    returns (a': Register, b': Register)
    requires |key| == 32 && n >= 2 && n % 2 == 0 && n <= 14 && 240 <= end <= rk.Length
    requires Stored(s, key, rk[..], n) && Holds(s, key, 4 * n - 8, a) && Holds(s, key, 4 * n - 4, b)
    requires rcon == RoundConstant(n / 2 - 1)
    modifies rk
    ensures n < 14 ==> Stored(s, key, rk[..], n + 2) && Holds(s, key, 4 * n, a') && Holds(s, key, 4 * n + 4, b')
    ensures n == 14 ==> Stored(s, key, rk[..], n + 1)
    ensures rk[end..] == old(rk[end..])
  {
    hide ScheduleWord, Stored, RoundConstant, KeyGenAssist, KeyStep, KeyStepOdd;
    EvenStep(s, key, 4 * n, a, b, rcon);
    a' := KeyStep(a, KeyGenAssist(s, b, rcon));
    StoreKey(s, key, rk, n, a', end);
    b' := b;
    if n < 14 {
      OddStep(s, key, 4 * n + 4, b, a');
      b' := KeyStepOdd(s, a', b);
      StoreKey(s, key, rk, n + 1, b', end);
    }
  }

  // proven_sys_aes_expand
  method Expand(s: SBox, rk: array<Byte>, rounds: nat, key: seq<Byte>) returns (ok: bool)
    requires rk.Length >= 16 * (rounds + 1)
    modifies rk
    ensures ok <==> (|key| == 16 && rounds == 10) || (|key| == 32 && rounds == 14)
    ensures ok ==> Stored(s, key, rk[..], rounds + 1) && rk[16 * (rounds + 1)..] == old(rk[16 * (rounds + 1)..])
    ensures !ok ==> rk[..] == old(rk[..])
  {
    hide ScheduleWord, Stored, RoundConstant;
    RoundConstants();
    if |key| == 16 && rounds == 10 {
      LoadedKey(s, key);
      StoredNone(s, key, rk[..]);
      var k := LoadRegister(key);
      assert key[..16] == key;
      StoreKey(s, key, rk, 0, k, 176);
      k := Key128(s, key, rk, 1, k, 0x01, 176);
      k := Key128(s, key, rk, 2, k, 0x02, 176);
      k := Key128(s, key, rk, 3, k, 0x04, 176);
      k := Key128(s, key, rk, 4, k, 0x08, 176);
      k := Key128(s, key, rk, 5, k, 0x10, 176);
      k := Key128(s, key, rk, 6, k, 0x20, 176);
      k := Key128(s, key, rk, 7, k, 0x40, 176);
      k := Key128(s, key, rk, 8, k, 0x80, 176);
      k := Key128(s, key, rk, 9, k, 0x1b, 176);
      k := Key128(s, key, rk, 10, k, 0x36, 176);
      return true;
    }
    if |key| == 32 && rounds == 14 {
      LoadedKey(s, key);
      StoredNone(s, key, rk[..]);
      var a, b := LoadRegister(key[..16]), LoadRegister(key[16..]);
      StoreKey(s, key, rk, 0, a, 240);
      StoreKey(s, key, rk, 1, b, 240);
      a, b := Key256(s, key, rk, 2, a, b, 0x01, 240);
      a, b := Key256(s, key, rk, 4, a, b, 0x02, 240);
      a, b := Key256(s, key, rk, 6, a, b, 0x04, 240);
      a, b := Key256(s, key, rk, 8, a, b, 0x08, 240);
      a, b := Key256(s, key, rk, 10, a, b, 0x10, 240);
      a, b := Key256(s, key, rk, 12, a, b, 0x20, 240);
      a, b := Key256(s, key, rk, 14, a, b, 0x40, 240);
      return true;
    }
    return false;
  }
}
