// GHASH with the AArch64 multiplier: every byte of a block has its bits
// reversed, and then the block is loaded least significant byte first.
module GhashArm {
  import opened Powers
  import opened Bytes
  import opened Gf2
  import opened GcmField
  import opened Ghash
  import Arm = GcmArm

  // vrbitq_u8
  function ReverseBits(b: seq<Byte>): (r: seq<Byte>)
    ensures |r| == |b|
  {
    seq(|b|, i requires 0 <= i < |b| => ToByte(Arm.Reverse(8, FromByte(b[i]))))
  }

  // ----- the load is the big-endian integer in the opposite order of digits -----

  lemma {:induction false} ReverseConcat(k: nat, j: nat, high: nat, low: nat)
    requires low < Pow2(j)
    ensures Arm.Reverse(k + j, Shl(j, high) + low) == Shl(k, Arm.Reverse(j, low)) + Arm.Reverse(k, high)
    decreases j
  {
    hide Arm.Reverse;
    if j == 0 {
      assert Arm.Reverse(0, low) == 0 by { ReverseNone(low); }
      ShlIsTimesPow2(k, 0);
    } else {
      ReverseConcat(k, j - 1, high, low / 2);
      Arm.ReverseFromBelow(k + j, Shl(j, high) + low);
      Arm.ReverseFromBelow(j, low);
      ShlAdd(k, Shl(j - 1, low % 2), Arm.Reverse(j - 1, low / 2));
      ShlShl(k, j - 1, low % 2);
    }
  }

  lemma ReverseOneByte(n: nat, high: nat, low: nat)
    requires low < 256
    ensures Arm.Reverse(8 * (n + 1), 256 * high + low) == Shl(8 * n, Arm.Reverse(8, low)) + Arm.Reverse(8 * n, high)
    ensures Arm.Reverse(8, low) < 256
  {
    hide Arm.Reverse, Shl;
    Pow2Values();
    ReverseConcat(8 * n, 8, high, low);
    ShlIsTimesPow2(8, high);
    Arm.ReverseBound(8, low);
  }

  lemma ReverseNone(x: nat)
    ensures Arm.Reverse(0, x) == 0
  {
  }

  lemma {:induction false} LoadReversed(b: seq<Byte>)
    ensures LittleEndian(ReverseBits(b)) == Arm.Reverse(8 * |b|, BigEndian(b))
  {
    hide FromByte, ToByte, Arm.Reverse;
    if b == [] {
      ReverseNone(0);
    } else {
      var n := |b| - 1;
      LoadReversed(b[..n]);
      LoadOneMore(b[..n], FromByte(b[n]));
      assert ReverseBits(b) == ReverseBits(b[..n]) + [ToByte(Arm.Reverse(8, FromByte(b[n])))];
    }
  }

  lemma LoadOneMore(front: seq<Byte>, last: nat)
    requires last < 256 && LittleEndian(ReverseBits(front)) == Arm.Reverse(8 * |front|, BigEndian(front))
    ensures LittleEndian(ReverseBits(front) + [ToByte(Arm.Reverse(8, last))]) ==
            Arm.Reverse(8 * (|front| + 1), 256 * BigEndian(front) + last)
  {
    hide FromByte, ToByte, Arm.Reverse, LittleEndian, BigEndian, ReverseBits, Shl;
    var digit := Arm.Reverse(8, last);
    ReverseOneByte(|front|, BigEndian(front), last);
    LittleEndianConcat(ReverseBits(front), [ToByte(digit)]);
    LittleEndianOne(ToByte(digit));
    ByteRoundTrip(digit);
    assert FromByte(ToByte(digit)) == digit;
  }

  // ----- and the store undoes it -----

  lemma {:induction false} ShrConcat(k: nat, bit: nat, low: nat)
    requires low < Pow2(k)
    ensures Shr(k, Shl(k, bit) + low) == bit
  {
    if k > 0 { ShrConcat(k - 1, bit, low / 2); }
  }

  lemma {:induction false} ReverseTwice(k: nat, x: nat)
    requires x < Pow2(k)
    ensures Arm.Reverse(k, Arm.Reverse(k, x)) == x
  {
    hide Shr;
    if k > 0 {
      var low := Arm.Reverse(k - 1, x / 2);
      Arm.ReverseFromBelow(k, x);
      Arm.ReverseBound(k - 1, x / 2);
      ShrConcat(k - 1, x % 2, low);
      ReverseConcat(0, k - 1, x % 2, low);
      ReverseTwice(k - 1, x / 2);
    }
  }

  lemma {:induction false} ToLittleEndianAppend(n: nat, low: nat, high: nat)
    requires low < Pow2(8 * n)
    ensures ToLittleEndian(n + 1, low + Shl(8 * n, high)) == ToLittleEndian(n, low) + [ToByte(high)]
  {
    hide ToByte;
    if n > 0 {
      var s := Shl(8 * (n - 1), high);
      ShlEight(8 * (n - 1), high);
      EightMore(n - 1);
      ToLittleEndianAppend(n - 1, low / 256, high);
      DropByte(low, s);
    }
  }

  lemma DropByte(low: nat, s: nat)
    ensures ToByte(low + 256 * s) == ToByte(low) && (low + 256 * s) / 256 == low / 256 + s
  {
    Quotient(low + 256 * s, 256, low / 256 + s, low % 256);
    SameByte(low + 256 * s, low);
  }

  lemma ReverseBitsAppend(front: seq<Byte>, b: Byte)
    ensures ReverseBits(front + [b]) == ReverseBits(front) + [ToByte(Arm.Reverse(8, FromByte(b)))]
  {
    hide Arm.Reverse, ToByte, FromByte;
  }

  lemma {:induction false} StoreReversed(n: nat, v: nat)
    requires v < Pow2(8 * n)
    ensures ReverseBits(ToLittleEndian(n, Arm.Reverse(8 * n, v))) == ToBigEndian(n, v)
  {
    hide Arm.Reverse, ToByte, FromByte, ToLittleEndian, Shl, ToBigEndian, ReverseBits;
    if n == 0 {
      StoreNone(v);
    } else {
      ToBigEndianNext(n, v);
      var high, low := v / 256, v % 256;
      EightMore(n - 1);
      StoreReversed(n - 1, high);
      ReverseOneByte(n - 1, high, low);
      Arm.ReverseBound(8 * (n - 1), high);
      var front := ToLittleEndian(n - 1, Arm.Reverse(8 * (n - 1), high));
      ToLittleEndianAppend(n - 1, Arm.Reverse(8 * (n - 1), high), Arm.Reverse(8, low));
      ByteRoundTrip(Arm.Reverse(8, low));
      ReverseTwiceByte(low);
      SameByte(low, v);
      ReverseBitsAppend(front, ToByte(Arm.Reverse(8, low)));
    }
  }

  lemma StoreNone(v: nat)
    ensures ReverseBits(ToLittleEndian(0, Arm.Reverse(8 * 0, v))) == ToBigEndian(0, v)
  {
    hide Arm.Reverse;
  }

  lemma ToBigEndianNext(n: nat, v: nat)
    requires n > 0
    ensures ToBigEndian(n, v) == ToBigEndian(n - 1, v / 256) + [ToByte(v)]
  {
    hide ToByte;
  }

  lemma ReverseTwiceByte(low: nat)
    requires low < 256
    ensures Arm.Reverse(8, Arm.Reverse(8, low)) == low
  {
    Pow2Values();
    ReverseTwice(8, low);
  }

  // ----- the loop -----

  // proven_sys_aes_ghash on AArch64: the same bytes as on x86.
  method HashBlocks(y: array<Byte>, h: seq<Byte>, data: seq<Byte>, blocks: nat)
    requires y.Length == 16 && |h| == 16 && 16 * blocks <= |data|
    modifies y
    ensures y[..] == ToBigEndian(16, Hash(Load(h), old(Load(y[..])), Blocks(data[..16 * blocks])))
  {
    hide Times, Plus, Hash, Load, Arm.GfMul, Arm.Reverse, ToBigEndian, ToLittleEndian, ReverseBits, LittleEndian;
    ghost var H: Element, y0: Element := Load(h), Load(y[..]);
    var hv := LittleEndian(ReverseBits(h));
    var yv := LittleEndian(ReverseBits(y[..]));
    LoadIsReverse(h);
    LoadIsReverse(y[..]);
    HashOfNone(H, y0, []);
    assert Blocks(data[..0]) == [];
    for at := 0 to blocks
      invariant yv == Arm.Reverse(128, Hash(H, y0, Blocks(data[..16 * at])))
    {
      var block := data[16 * at..16 * at + 16];
      LoadIsReverse(block);
      var x := LittleEndian(ReverseBits(block));
      OneMoreReversed(Hash(H, y0, Blocks(data[..16 * at])), Load(block), H);
      HashOneMore(H, y0, data, at);
      yv := Arm.GfMul(Xor(yv, x), hv);
    }
    Pow2Values();
    StoreReversed(16, Hash(H, y0, Blocks(data[..16 * blocks])));
    StoreBytes(y, 0, ReverseBits(ToLittleEndian(16, yv)));
    assert y[..] == y[0..16];
  }

  lemma LoadIsReverse(b: seq<Byte>)
    requires |b| == 16
    ensures LittleEndian(ReverseBits(b)) == Arm.Reverse(128, Load(b))
  {
    LoadReversed(b);
  }

  lemma OneMoreReversed(y: Element, x: Element, h: Element)
    ensures Arm.GfMul(Xor(Arm.Reverse(128, y), Arm.Reverse(128, x)), Arm.Reverse(128, h))
         == Arm.Reverse(128, Times(Plus(y, x), h))
  {
    hide Arm.GfMul, Arm.Reverse, NistMul, Xor, Times, Plus;
    Arm.ReverseXor(128, y, x);
    PlusIsXor(y, x);
    Arm.GfMulIsNistMul(Plus(y, x), h);
    TimesIsNistMul(Plus(y, x), h);
  }

  lemma TimesIsNistMul(a: Element, b: Element)
    ensures Times(a, b) == NistMul(a, b)
  {
  }
}
