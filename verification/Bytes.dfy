// Byte strings and the integers they encode.
module Bytes {
  import opened Powers
  import ByteDigits

  type Byte = bv8

  datatype Option<+T> = None | Some(value: T)

  function FromByte(b: Byte): (v: nat)
    ensures v < 256
  {
    ByteDigits.Value(ByteDigits.DigitsOf(b))
  }

  // The value modulo 256.
  function ToByte(v: nat): Byte {
    ByteDigits.Pack(ByteDigits.LowDigits(v % 256))
  }

  lemma ByteRoundTrip(v: nat)
    ensures FromByte(ToByte(v)) == v % 256
  {
    hide ByteDigits.Pack, ByteDigits.DigitsOf, ByteDigits.Value, ByteDigits.LowDigits;
    ByteDigits.PackRoundTrip(ByteDigits.LowDigits(v % 256));
    ByteDigits.LowDigitsValue(v % 256);
  }

  // The number of a byte is the one the byte has.
  lemma FromByteIs(b: Byte)
    ensures FromByte(b) == b as nat
  {
    ByteDigits.ValueIs(b);
  }

  lemma ToByteIs(v: nat)
    ensures ToByte(v) as nat == v % 256
  {
    hide FromByte, ToByte;
    FromByteIs(ToByte(v));
    ByteRoundTrip(v);
  }

  lemma SameByte(v: nat, w: nat)
    requires v % 256 == w % 256
    ensures ToByte(v) == ToByte(w)
  {
    hide ByteDigits.Pack, ByteDigits.LowDigits;
  }

  function BigEndian(b: seq<Byte>): (v: nat)
    ensures v < Pow2(8 * |b|)
  {
    if b == [] then 0
    else
      EightMore(|b| - 1);
      256 * BigEndian(b[..|b| - 1]) + FromByte(b[|b| - 1])
  }

  function ToBigEndian(n: nat, v: nat): (b: seq<Byte>)
    ensures |b| == n
  {
    if n == 0 then [] else ToBigEndian(n - 1, v / 256) + [ToByte(v)]
  }

  function LittleEndian(b: seq<Byte>): (v: nat)
    ensures v < Pow2(8 * |b|)
  {
    if b == [] then 0
    else
      EightMore(|b| - 1);
      FromByte(b[0]) + 256 * LittleEndian(b[1..])
  }

  function ToLittleEndian(n: nat, v: nat): (b: seq<Byte>)
    ensures |b| == n
  {
    if n == 0 then [] else [ToByte(v)] + ToLittleEndian(n - 1, v / 256)
  }

  lemma EightMore(n: nat)
    ensures Pow2(8 * (n + 1)) == 256 * Pow2(8 * n)
  {
    Pow2Add(8, 8 * n);
    Pow2Values();
  }

  lemma QuotientBelow(n: nat, v: nat)
    requires n > 0 && v < Pow2(8 * n)
    ensures v / 256 < Pow2(8 * (n - 1))
  {
    hide Pow2;
    EightMore(n - 1);
  }

  lemma {:induction false} ToBigEndianRoundTrip(n: nat, v: nat)
    requires v < Pow2(8 * n)
    ensures BigEndian(ToBigEndian(n, v)) == v
  {
    hide FromByte, ToByte, Pow2;
    if n == 0 {
      assert v == 0 by { Pow2Small(); }
    } else {
      QuotientBelow(n, v);
      ByteRoundTrip(v);
      ToBigEndianRoundTrip(n - 1, v / 256);
      assert ToBigEndian(n, v)[..n - 1] == ToBigEndian(n - 1, v / 256);
    }
  }

  lemma {:induction false} LittleEndianRoundTrip(n: nat, v: nat)
    requires v < Pow2(8 * n)
    ensures LittleEndian(ToLittleEndian(n, v)) == v
  {
    hide FromByte, ToByte, Pow2;
    if n == 0 {
      assert v == 0 by { Pow2Small(); }
    } else {
      QuotientBelow(n, v);
      ByteRoundTrip(v);
      LittleEndianRoundTrip(n - 1, v / 256);
      assert ToLittleEndian(n, v)[1..] == ToLittleEndian(n - 1, v / 256);
    }
  }

  lemma {:induction false} LittleEndianConcat(a: seq<Byte>, b: seq<Byte>)
    ensures LittleEndian(a + b) == LittleEndian(a) + Shl(8 * |a|, LittleEndian(b))
  {
    hide FromByte, Shl;
    if a == [] {
      assert a + b == b;
      assert Shl(0, LittleEndian(b)) == LittleEndian(b) by { ShlIsTimesPow2(0, LittleEndian(b)); }
    } else {
      LittleEndianConcat(a[1..], b);
      var all := a + b;
      assert all[0] == a[0] && all[1..] == a[1..] + b;
      ShlEight(8 * (|a| - 1), LittleEndian(b));
    }
  }

  lemma LittleEndianOne(b: Byte)
    ensures LittleEndian([b]) == FromByte(b)
  {
    hide FromByte;
  }

  // ----- which byte is which digit -----

  lemma {:induction false} BigEndianAt(b: seq<Byte>, i: nat)
    requires i < |b|
    ensures BigEndian(b) / Pow(256, |b| - 1 - i) % 256 == FromByte(b[i])
  {
    hide FromByte, Pow;
    var n := |b| - 1;
    var high, low := BigEndian(b[..n]), FromByte(b[n]);
    Quotient(256 * high + low, 256, high, low);
    if i == n {
      DivideNone(BigEndian(b));
    } else {
      BigEndianAt(b[..n], i);
      DivideTwice(256, BigEndian(b), n - 1 - i);
    }
  }

  lemma {:induction false} LittleEndianAt(b: seq<Byte>, i: nat)
    requires i < |b|
    ensures LittleEndian(b) / Pow(256, i) % 256 == FromByte(b[i])
  {
    hide FromByte, Pow;
    var high, low := LittleEndian(b[1..]), FromByte(b[0]);
    Quotient(256 * high + low, 256, high, low);
    if i == 0 {
      DivideNone(LittleEndian(b));
    } else {
      LittleEndianAt(b[1..], i - 1);
      DivideTwice(256, LittleEndian(b), i - 1);
    }
  }

  lemma DivideNone(v: nat)
    ensures v / Pow(256, 0) == v
  {
    Quotient(v, 1, v, 0);
  }

  // ----- 16-byte blocks of two strings end to end -----

  function Chunks(b: seq<Byte>): (c: seq<seq<Byte>>)
    requires |b| % 16 == 0
    ensures |c| == |b| / 16 && forall i :: 0 <= i < |c| ==> |c[i]| == 16
  {
    seq(|b| / 16, i requires 0 <= i < |b| / 16 => b[16 * i..16 * i + 16])
  }

  lemma ChunksAppend(a: seq<Byte>, b: seq<Byte>)
    requires |a| % 16 == 0 && |b| % 16 == 0
    ensures |a + b| % 16 == 0 && Chunks(a + b) == Chunks(a) + Chunks(b)
  {
    var m, n := |a| / 16, |b| / 16;
    assert |a| == 16 * m && |b| == 16 * n;
    BothCounts(a, b, m, n);
    var all := Chunks(a + b);
    forall i | 0 <= i < m
      ensures all[i] == Chunks(a)[i]
    {
      assert (a + b)[16 * i..16 * i + 16] == a[16 * i..16 * i + 16];
    }
    forall i | 0 <= i < n
      ensures all[m + i] == Chunks(b)[i]
    {
      SliceOfRight(a, b, 16 * m, 16 * i);
      assert all[m + i] == (a + b)[16 * m + 16 * i..16 * m + 16 * i + 16];
    }
  }

  lemma SliceOfRight(a: seq<Byte>, b: seq<Byte>, n: nat, at: nat)
    requires |a| == n && at + 16 <= |b|
    ensures (a + b)[n + at..n + at + 16] == b[at..at + 16]
  {
  }

  lemma BothCounts(a: seq<Byte>, b: seq<Byte>, m: nat, n: nat)
    requires |a| == 16 * m && |b| == 16 * n
    ensures |a + b| % 16 == 0 && |a + b| / 16 == m + n
  {
    Quotient(|a + b|, 16, m + n, 0);
  }

  // Byte by byte, as long as the shorter.
  function XorBytes(a: seq<Byte>, b: seq<Byte>): (c: seq<Byte>)
    ensures |c| == if |a| <= |b| then |a| else |b|
  {
    seq(if |a| <= |b| then |a| else |b|, i requires 0 <= i < |a| && i < |b| => a[i] ^ b[i])
  }

  function Zeros(n: nat): (z: seq<Byte>)
    ensures |z| == n
  {
    seq(n, _ => 0)
  }

  // A string of bytes stored into a buffer.
  method StoreBytes(a: array<Byte>, at: nat, b: seq<Byte>)
    requires at + |b| <= a.Length
    modifies a
    ensures a[at..at + |b|] == b
    ensures a[..at] == old(a[..at]) && a[at + |b|..] == old(a[at + |b|..])
  {
    for k := 0 to |b|
      invariant a[at..at + k] == b[..k]
      invariant a[..at] == old(a[..at]) && a[at + |b|..] == old(a[at + |b|..])
    {
      a[at + k] := b[k];
      assert a[at..at + k + 1] == a[at..at + k] + [b[k]];
    }
  }
}
