// The rounds of AES (section 5 of FIPS 197) as the AES-NI instructions group
// them, and the equivalent inverse cipher of section 5.3.5. The substitution
// box is a parameter: a byte map and its inverse.
module AesRounds {
  import opened Bytes
  import opened CounterMode
  import opened AesField

  datatype SBox = SBox(sub: Byte -> Byte, inv: Byte -> Byte)

  ghost predicate Inverts(s: SBox) {
    forall b: Byte :: s.inv(s.sub(b)) == b
  }

  // ----- the steps on a state: byte r + 4c is row r of column c -----

  function SubBytes(s: SBox, b: Block): Block {
    seq(16, i requires 0 <= i < 16 => s.sub(b[i]))
  }

  function InvSubBytes(s: SBox, b: Block): Block {
    seq(16, i requires 0 <= i < 16 => s.inv(b[i]))
  }

  // Row r moves r columns to the left.
  function ShiftRows(b: Block): Block {
    [b[0], b[5], b[10], b[15], b[4], b[9], b[14], b[3], b[8], b[13], b[2], b[7], b[12], b[1], b[6], b[11]]
  }

  function InvShiftRows(b: Block): Block {
    [b[0], b[13], b[10], b[7], b[4], b[1], b[14], b[11], b[8], b[5], b[2], b[15], b[12], b[9], b[6], b[3]]
  }

  function ColumnAt(b: Block, c: nat): Column
    requires c < 4
  {
    Column(b[4 * c], b[4 * c + 1], b[4 * c + 2], b[4 * c + 3])
  }

  function FromColumns(w: Column, x: Column, y: Column, z: Column): Block {
    [w.r0, w.r1, w.r2, w.r3, x.r0, x.r1, x.r2, x.r3, y.r0, y.r1, y.r2, y.r3, z.r0, z.r1, z.r2, z.r3]
  }

  function MixColumns(b: Block): Block {
    FromColumns(MixColumn(ColumnAt(b, 0)), MixColumn(ColumnAt(b, 1)), MixColumn(ColumnAt(b, 2)), MixColumn(ColumnAt(b, 3)))
  }

  // _mm_aesimc_si128
  function InvMixColumns(b: Block): Block {
    FromColumns(InvMixColumn(ColumnAt(b, 0)), InvMixColumn(ColumnAt(b, 1)),
                InvMixColumn(ColumnAt(b, 2)), InvMixColumn(ColumnAt(b, 3)))
  }

  // ----- the instructions -----

  function SubShift(s: SBox, b: Block): Block { SubBytes(s, ShiftRows(b)) }
  function InvSubShift(s: SBox, b: Block): Block { InvSubBytes(s, InvShiftRows(b)) }

  // AESENC, AESENCLAST, AESDEC and AESDECLAST.
  function AesEnc(s: SBox, b: Block, k: Block): Block { XorBlock(MixColumns(SubShift(s, b)), k) }
  function AesEncLast(s: SBox, b: Block, k: Block): Block { XorBlock(SubShift(s, b), k) }
  function AesDec(s: SBox, b: Block, k: Block): Block { XorBlock(InvMixColumns(InvSubShift(s, b)), k) }
  function AesDecLast(s: SBox, b: Block, k: Block): Block { XorBlock(InvSubShift(s, b), k) }

  // The cipher for the block modes.
  function AesCipher(s: SBox): Cipher {
    Cipher((b, k) => AesEnc(s, b, k), (b, k) => AesEncLast(s, b, k))
  }

  // ----- the equivalent inverse cipher -----

  // The round keys in reverse, the middle ones through InvMixColumns.
  function InverseKeys(keys: seq<Block>): (dk: seq<Block>)
    requires |keys| >= 2
    ensures |dk| == |keys|
  {
    var n := |keys| - 1;
    seq(n + 1, r requires 0 <= r <= n =>
      if r == 0 || r == n then keys[n - r] else InvMixColumns(keys[n - r]))
  }

  function InvRounds(s: SBox, dk: seq<Block>, r: nat, b: Block): Block
    requires r < |dk|
  {
    if r == 0 then XorBlock(b, dk[0]) else AesDec(s, InvRounds(s, dk, r - 1, b), dk[r])
  }

  function Decrypt(s: SBox, dk: seq<Block>, b: Block): Block
    requires |dk| >= 2
  {
    AesDecLast(s, InvRounds(s, dk, |dk| - 2, b), dk[|dk| - 1])
  }

  // ----- each step undone -----

  lemma InvSubShiftUndoes(s: SBox, b: Block)
    requires Inverts(s)
    ensures InvSubShift(s, SubShift(s, b)) == b
  {
    hide Inverts;
    var t := SubShift(s, b);
    forall i | 0 <= i < 16
      ensures InvShiftRows(t)[i] == s.sub(b[i])
      ensures InvSubShift(s, t)[i] == b[i]
    {
      ShiftedPlace(s, b, i);
      InvertsAt(s, b[i]);
    }
  }

  lemma ShiftedPlace(s: SBox, b: Block, i: nat)
    requires i < 16
    ensures InvShiftRows(SubShift(s, b))[i] == s.sub(b[i])
  {
    hide SubBytes;
    SubBytesAt(s, ShiftRows(b));
    assert i == 0 || i == 1 || i == 2 || i == 3 || i == 4 || i == 5 || i == 6 || i == 7 ||
           i == 8 || i == 9 || i == 10 || i == 11 || i == 12 || i == 13 || i == 14 || i == 15;
  }

  lemma SubBytesAt(s: SBox, b: Block)
    ensures forall i :: 0 <= i < 16 ==> SubBytes(s, b)[i] == s.sub(b[i])
  {
  }

  lemma InvertsAt(s: SBox, b: Byte)
    requires Inverts(s)
    ensures s.inv(s.sub(b)) == b
  {
  }

  lemma ColumnsAgree(a: Block, b: Block)
    requires ColumnAt(a, 0) == ColumnAt(b, 0) && ColumnAt(a, 1) == ColumnAt(b, 1)
    requires ColumnAt(a, 2) == ColumnAt(b, 2) && ColumnAt(a, 3) == ColumnAt(b, 3)
    ensures a == b
  {
  }

  lemma ColumnOfColumns(w: Column, x: Column, y: Column, z: Column)
    ensures var b := FromColumns(w, x, y, z);
            ColumnAt(b, 0) == w && ColumnAt(b, 1) == x && ColumnAt(b, 2) == y && ColumnAt(b, 3) == z
  {
  }

  lemma InvMixColumnsAt(b: Block, c: nat)
    requires c < 4
    ensures ColumnAt(InvMixColumns(b), c) == InvMixColumn(ColumnAt(b, c))
    ensures ColumnAt(MixColumns(b), c) == MixColumn(ColumnAt(b, c))
  {
    hide InvMixColumn, MixColumn, FromColumns, ColumnAt;
    ColumnOfColumns(InvMixColumn(ColumnAt(b, 0)), InvMixColumn(ColumnAt(b, 1)),
                    InvMixColumn(ColumnAt(b, 2)), InvMixColumn(ColumnAt(b, 3)));
    ColumnOfColumns(MixColumn(ColumnAt(b, 0)), MixColumn(ColumnAt(b, 1)), MixColumn(ColumnAt(b, 2)), MixColumn(ColumnAt(b, 3)));
  }

  lemma InvMixColumnsUndoes(b: Block)
    ensures InvMixColumns(MixColumns(b)) == b
  {
    hide MixColumn, InvMixColumn, InvMixColumns, MixColumns, ColumnAt;
    var l := InvMixColumns(MixColumns(b));
    forall c: nat | c < 4
      ensures ColumnAt(l, c) == ColumnAt(b, c)
    {
      InvMixColumnUndoes(ColumnAt(b, c));
      InvMixColumnsAt(b, c);
      InvMixColumnsAt(MixColumns(b), c);
    }
    ColumnsAgree(l, b);
  }

  lemma XorBlockAt(a: Block, b: Block, c: nat)
    requires c < 4
    ensures ColumnAt(XorBlock(a, b), c) == PlusColumn(ColumnAt(a, c), ColumnAt(b, c))
  {
    hide XorBlock, Plus;
    XorByteAt(a, b, 4 * c); XorByteAt(a, b, 4 * c + 1); XorByteAt(a, b, 4 * c + 2); XorByteAt(a, b, 4 * c + 3);
  }

  lemma XorByteAt(a: Block, b: Block, i: nat)
    requires i < 16
    ensures XorBlock(a, b)[i] == Plus(a[i], b[i])
  {
  }

  lemma InvMixColumnsXor(a: Block, b: Block)
    ensures InvMixColumns(XorBlock(a, b)) == XorBlock(InvMixColumns(a), InvMixColumns(b))
  {
    hide InvMixColumn, InvMixColumns, XorBlock, ColumnAt, PlusColumn;
    var l, r := InvMixColumns(XorBlock(a, b)), XorBlock(InvMixColumns(a), InvMixColumns(b));
    forall c: nat | c < 4
      ensures ColumnAt(l, c) == ColumnAt(r, c)
    {
      InvMixColumnPlus(ColumnAt(a, c), ColumnAt(b, c));
      XorBlockAt(a, b, c);
      XorBlockAt(InvMixColumns(a), InvMixColumns(b), c);
      InvMixColumnsAt(XorBlock(a, b), c);
      InvMixColumnsAt(a, c);
      InvMixColumnsAt(b, c);
    }
    ColumnsAgree(l, r);
  }

  lemma XorBlockTwice(a: Block, b: Block)
    ensures XorBlock(XorBlock(a, b), b) == a
  {
    forall i | 0 <= i < 16
      ensures (a[i] ^ b[i]) ^ b[i] == a[i]
    {
    }
  }

  // One inverse round: from after the substitution of a state to after the substitution of the one before.
  lemma InverseRound(s: SBox, x: Block, k: Block)
    requires Inverts(s)
    ensures AesDec(s, SubShift(s, AesEnc(s, x, k)), InvMixColumns(k)) == SubShift(s, x)
  {
    hide SubShift, InvSubShift, MixColumns, InvMixColumns, XorBlock, Inverts;
    var y := MixColumns(SubShift(s, x));
    InvSubShiftUndoes(s, XorBlock(y, k));
    InvMixColumnsXor(y, k);
    InvMixColumnsUndoes(SubShift(s, x));
    XorBlockTwice(SubShift(s, x), InvMixColumns(k));
  }

  lemma {:induction false} InverseRounds(s: SBox, keys: seq<Block>, r: nat, b: Block)
    requires Inverts(s) && |keys| >= 2 && r <= |keys| - 2
    ensures InvRounds(s, InverseKeys(keys), r, Encrypt(AesCipher(s), keys, b))
         == SubShift(s, Rounds(AesCipher(s), keys, |keys| - 2 - r, b))
  {
    hide SubShift, AesEnc, AesDec, InvMixColumns, XorBlock, Inverts;
    var n := |keys| - 1;
    var c := AesCipher(s);
    if r == 0 {
      XorBlockTwice(SubShift(s, Rounds(c, keys, n - 1, b)), keys[n]);
    } else {
      InverseRounds(s, keys, r - 1, b);
      InverseRound(s, Rounds(c, keys, n - 1 - r, b), keys[n - r]);
      assert Rounds(c, keys, n - r, b) == AesEnc(s, Rounds(c, keys, n - r - 1, b), keys[n - r]);
    }
  }

  // The equivalent inverse cipher inverts the cipher.
  lemma DecryptUndoes(s: SBox, keys: seq<Block>, b: Block)
    requires Inverts(s) && |keys| >= 2
    ensures Decrypt(s, InverseKeys(keys), Encrypt(AesCipher(s), keys, b)) == b
  {
    hide SubShift, InvSubShift, XorBlock, Inverts, Encrypt, InvRounds;
    var n := |keys| - 1;
    InverseRounds(s, keys, n - 1, b);
    InvSubShiftUndoes(s, XorBlock(b, keys[0]));
    XorBlockTwice(b, keys[0]);
  }
}
