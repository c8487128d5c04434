// The block cipher's outline and counter mode (section 6.5 of NIST SP 800-38D).
// The cipher's round and last round are parameters: nothing here depends on
// what they compute.
module CounterMode {
  import opened Bytes
  import opened Powers

  type Block = b: seq<Byte> | |b| == 16 witness [0, 0, 0, 0, 0, 0, 0, 0, 0, 0, 0, 0, 0, 0, 0, 0]

  // _mm_aesenc_si128 and _mm_aesenclast_si128: a state and a round key.
  datatype Cipher = Cipher(round: (Block, Block) -> Block, last: (Block, Block) -> Block)

  function XorBlock(a: Block, b: Block): Block {
    XorBytes(a, b)
  }

  function RoundKeys(rk: seq<Byte>, rounds: nat): (keys: seq<Block>)
    requires |rk| == 16 * (rounds + 1)
    ensures |keys| == rounds + 1
  {
    seq(rounds + 1, r requires 0 <= r <= rounds => rk[16 * r..16 * r + 16])
  }

  lemma RoundKeyBytes(rk: seq<Byte>, rounds: nat, r: nat, i: nat)
    requires |rk| == 16 * (rounds + 1) && r <= rounds && i < 16
    ensures RoundKeys(rk, rounds)[r][i] == rk[16 * r + i]
  {
  }

  // The state after the initial key and r rounds.
  function Rounds(c: Cipher, keys: seq<Block>, r: nat, b: Block): Block
    requires r < |keys|
  {
    if r == 0 then XorBlock(b, keys[0]) else c.round(Rounds(c, keys, r - 1, b), keys[r])
  }

  // aes_block
  function Encrypt(c: Cipher, keys: seq<Block>, b: Block): Block
    requires |keys| >= 2
  {
    c.last(Rounds(c, keys, |keys| - 2, b), keys[|keys| - 1])
  }

  function CounterBlock(nonce: seq<Byte>, counter: nat): Block
    requires |nonce| == 12
  {
    nonce + ToBigEndian(4, counter % TWO_32)
  }

  // The nonce, and the counter modulo 2^32 in the last four bytes, the highest first.
  lemma CounterBlockIs(nonce: seq<Byte>, counter: nat)
    requires |nonce| == 12
    ensures CounterBlock(nonce, counter)[..12] == nonce
    ensures BigEndian(CounterBlock(nonce, counter)[12..]) == counter % TWO_32
    ensures forall j :: 12 <= j < 16 ==>
              CounterBlock(nonce, counter)[j] as nat == counter % TWO_32 / Pow(256, 15 - j) % 256
  {
    hide BigEndian, ToBigEndian, FromByte, Pow;
    var w := ToBigEndian(4, counter % TWO_32);
    var b := CounterBlock(nonce, counter);
    assert b[12..] == w;
    Pow2Small();
    ToBigEndianRoundTrip(4, counter % TWO_32);
    forall j | 12 <= j < |b|
      ensures b[j] as nat == counter % TWO_32 / Pow(256, 15 - j) % 256
    {
      BigEndianAt(w, j - 12);
      FromByteIs(w[j - 12]);
    }
  }

  // The first counter block masks the tag, and the second enciphers the first sixteen bytes.
  lemma FirstCounterBlocks(nonce: seq<Byte>)
    requires |nonce| == 12
    ensures CounterBlock(nonce, 1) == nonce + [0, 0, 0, 1] && CounterBlock(nonce, 2) == nonce + [0, 0, 0, 2]
  {
    FewBytes();
    hide ToByte;
    assert ToBigEndian(0, 0) == [] && ToBigEndian(1, 0) == [0] && ToBigEndian(2, 0) == [0, 0] && ToBigEndian(3, 0) == [0, 0, 0];
  }

  lemma FewBytes()
    ensures ToByte(0) == 0 && ToByte(1) == 1 && ToByte(2) == 2
  {
    hide ToByte;
    ToByteIs(0);
    ToByteIs(1);
    ToByteIs(2);
  }

  // Byte p of the keystream that starts at this counter.
  function KeyByte(c: Cipher, keys: seq<Block>, nonce: seq<Byte>, counter: nat, p: nat): Byte
    requires |keys| >= 2 && |nonce| == 12
  {
    Encrypt(c, keys, CounterBlock(nonce, counter + p / 16))[p % 16]
  }

  lemma FirstKeyByte(c: Cipher, keys: seq<Block>, nonce: seq<Byte>, counter: nat, p: nat)
    requires |keys| >= 2 && |nonce| == 12 && p < 16
    ensures KeyByte(c, keys, nonce, counter, p) == Encrypt(c, keys, CounterBlock(nonce, counter))[p]
  {
    hide Encrypt, CounterBlock;
  }

  function Keystream(c: Cipher, keys: seq<Block>, nonce: seq<Byte>, counter: nat, n: nat): (k: seq<Byte>)
    requires |keys| >= 2 && |nonce| == 12
    ensures |k| == n
  {
    seq(n, p requires 0 <= p => KeyByte(c, keys, nonce, counter, p))
  }

  // Counter mode: what the standard calls GCTR.
  function Ctr(c: Cipher, keys: seq<Block>, nonce: seq<Byte>, counter: nat, data: seq<Byte>): (r: seq<Byte>)
    requires |keys| >= 2 && |nonce| == 12
    ensures |r| == |data|
  {
    XorBytes(data, Keystream(c, keys, nonce, counter, |data|))
  }

  lemma CtrInverts(c: Cipher, keys: seq<Block>, nonce: seq<Byte>, counter: nat, data: seq<Byte>)
    requires |keys| >= 2 && |nonce| == 12
    ensures Ctr(c, keys, nonce, counter, Ctr(c, keys, nonce, counter, data)) == data
  {
    hide KeyByte;
    var k := Keystream(c, keys, nonce, counter, |data|);
    forall p | 0 <= p < |data|
      ensures (data[p] ^ k[p]) ^ k[p] == data[p]
    {
    }
  }

  // The nonce, zeros where the counter goes, and the first round key.
  function Base(nonce: seq<Byte>, key: Block): Block
    requires |nonce| == 12
  {
    XorBlock(nonce + Zeros(4), key)
  }

  // _mm_insert_epi32 of the byte-swapped counter into zeros.
  function CounterLane(counter: nat): Block {
    Zeros(12) + ToBigEndian(4, counter % TWO_32)
  }

  lemma BaseWithCounter(nonce: seq<Byte>, key: Block, counter: nat)
    requires |nonce| == 12
    ensures XorBlock(Base(nonce, key), CounterLane(counter)) == XorBlock(CounterBlock(nonce, counter), key)
  {
    hide ToBigEndian;
    var w := ToBigEndian(4, counter % TWO_32);
    forall j | 0 <= j < 16
      ensures XorBlock(Base(nonce, key), CounterLane(counter))[j] == XorBlock(CounterBlock(nonce, counter), key)[j]
    {
      if j < 12 {
        assert ((nonce + Zeros(4))[j] ^ key[j]) ^ 0 == nonce[j] ^ key[j];
      } else {
        assert (0 ^ key[j]) ^ w[j - 12] == w[j - 12] ^ key[j];
      }
    }
  }

  // ----- several blocks in flight -----

  // n counter blocks with the first round key folded in.
  method StartBlocks(base: Block, counter: nat, n: nat, ghost nonce: seq<Byte>, ghost key: Block) returns (b: seq<Block>)
    requires |nonce| == 12 && base == Base(nonce, key)
    ensures |b| == n
    ensures forall i :: 0 <= i < n ==> b[i] == XorBlock(CounterBlock(nonce, counter + i), key)
  {
    hide Base, CounterLane, XorBlock, CounterBlock;
    b := [];
    for i := 0 to n
      invariant |b| == i
      invariant forall j :: 0 <= j < i ==> b[j] == XorBlock(CounterBlock(nonce, counter + j), key)
    {
      BaseWithCounter(nonce, key, counter + i);
      b := b + [XorBlock(base, CounterLane(counter + i))];
    }
  }

  method RoundAll(c: Cipher, b: seq<Block>, key: Block) returns (r: seq<Block>)
    ensures |r| == |b| && forall i :: 0 <= i < |b| ==> r[i] == c.round(b[i], key)
  {
    r := [];
    for i := 0 to |b|
      invariant |r| == i && forall j :: 0 <= j < i ==> r[j] == c.round(b[j], key)
    {
      r := r + [c.round(b[i], key)];
    }
  }

  // The blocks of one group after r rounds.
  ghost predicate InFlight(c: Cipher, keys: seq<Block>, nonce: seq<Byte>, counter: nat, r: nat, b: seq<Block>)
    requires r < |keys| && |nonce| == 12
  {
    forall i :: 0 <= i < |b| ==> b[i] == Rounds(c, keys, r, CounterBlock(nonce, counter + i))
  }

  lemma InFlightNext(c: Cipher, keys: seq<Block>, nonce: seq<Byte>, counter: nat, r: nat, b: seq<Block>, b': seq<Block>)
    requires r + 1 < |keys| && |nonce| == 12 && InFlight(c, keys, nonce, counter, r, b)
    requires |b'| == |b| && forall i :: 0 <= i < |b| ==> b'[i] == c.round(b[i], keys[r + 1])
    ensures InFlight(c, keys, nonce, counter, r + 1, b')
  {
  }

  // n bytes of inp under the keystream ks, to the same place in out; inp may be out.
  method XorStore(inp: array<Byte>, out: array<Byte>, at: nat, ks: seq<Byte>, n: nat)
    requires at + n <= inp.Length && at + n <= out.Length && n <= |ks|
    modifies out
    ensures forall p :: at <= p < at + n ==> out[p] == old(inp[p]) ^ ks[p - at]
    ensures forall p :: 0 <= p < out.Length && !(at <= p < at + n) ==> out[p] == old(out[p])
  {
    for j := 0 to n
      invariant forall p :: at <= p < at + j ==> out[p] == old(inp[p]) ^ ks[p - at]
      invariant forall p :: 0 <= p < out.Length && !(at <= p < at + j) ==> out[p] == old(out[p])
    {
      out[at + j] := inp[at + j] ^ ks[j];
    }
  }

  // The last round of the blocks in flight, and their len bytes stored from at on.
  method FinishBlocks(c: Cipher, keys: seq<Block>, ghost nonce: seq<Byte>, ghost counter: nat, b: seq<Block>,
                      inp: array<Byte>, out: array<Byte>, at: nat, len: nat)
    requires |keys| >= 2 && |nonce| == 12 && InFlight(c, keys, nonce, counter, |keys| - 2, b)
    requires |b| == (len + 15) / 16 && at + len <= inp.Length && at + len <= out.Length
    modifies out
    ensures forall p :: 0 <= p < len ==> out[at + p] == old(inp[at + p]) ^ KeyByte(c, keys, nonce, counter, p)
    ensures forall p :: 0 <= p < out.Length && !(at <= p < at + len) ==> out[p] == old(out[p])
  {
    hide CounterBlock, Rounds;
    for i := 0 to |b|
      invariant forall p :: 0 <= p < 16 * i && p < len ==>
        out[at + p] == old(inp[at + p]) ^ KeyByte(c, keys, nonce, counter, p)
      invariant forall p :: 0 <= p < out.Length && !(at <= p < at + 16 * i && p < at + len) ==> out[p] == old(out[p])
    {
      var n := if len - 16 * i >= 16 then 16 else len - 16 * i;
      var ks := c.last(b[i], keys[|keys| - 1]);
      XorStore(inp, out, at + 16 * i, ks, n);
      forall p | 16 * i <= p < 16 * i + n
        ensures KeyByte(c, keys, nonce, counter, p) == ks[p - 16 * i]
      {
      }
    }
  }

  // From inp0 and out0: the bytes before at are done, those after it are as they were.
  ghost predicate Progress(c: Cipher, keys: seq<Block>, nonce: seq<Byte>, counter: nat, inp0: seq<Byte>, out0: seq<Byte>,
                           inp: seq<Byte>, out: seq<Byte>, at: nat, len: nat)
    requires |keys| >= 2 && |nonce| == 12
  {
    && at <= len <= |inp| == |inp0| && len <= |out| == |out0|
    && (forall p :: 0 <= p < at ==> out[p] == inp0[p] ^ KeyByte(c, keys, nonce, counter, p))
    && (forall p :: at <= p < len ==> inp[p] == inp0[p])
    && (forall p :: at <= p < |out| ==> out[p] == out0[p])
  }

  lemma KeyByteLater(c: Cipher, keys: seq<Block>, nonce: seq<Byte>, counter: nat, blocks: nat, p: nat)
    requires |keys| >= 2 && |nonce| == 12
    ensures KeyByte(c, keys, nonce, counter + blocks, p) == KeyByte(c, keys, nonce, counter, 16 * blocks + p)
  {
    Quotient(16 * blocks + p, 16, blocks + p / 16, p % 16);
  }

  // The rounds of a group of counter blocks, all but the last.
  method GroupRounds(c: Cipher, keys: seq<Block>, base: Block, counter: nat, n: nat, ghost nonce: seq<Byte>)
    returns (b: seq<Block>)
    requires |keys| >= 2 && |nonce| == 12 && base == Base(nonce, keys[0])
    ensures |b| == n && InFlight(c, keys, nonce, counter, |keys| - 2, b)
  {
    hide CounterBlock, Base;
    b := StartBlocks(base, counter, n, nonce, keys[0]);
    for r := 1 to |keys| - 1
      invariant |b| == n && InFlight(c, keys, nonce, counter, r - 1, b)
    {
      var b' := RoundAll(c, b, keys[r]);
      InFlightNext(c, keys, nonce, counter, r - 1, b, b');
      b := b';
    }
  }

  // proven_sys_aes_ctr: whole groups of blocks, then block by block. inp may be out.
  method CtrXor(c: Cipher, rk: seq<Byte>, rounds: nat, iv: seq<Byte>, counter: nat,
                inp: array<Byte>, out: array<Byte>, len: nat, width: nat)
    requires rounds >= 1 && |rk| == 16 * (rounds + 1) && |iv| == 12
    requires counter < TWO_32 && (width == 4 || width == 8)
    requires len <= inp.Length && len <= out.Length
    modifies out
    ensures out[..len] == Ctr(c, RoundKeys(rk, rounds), iv, counter, old(inp[..len]))
    ensures out[len..] == old(out[len..])
  {
    hide KeyByte, InFlight, Base, RoundKeys, Progress, CounterAt;
    var keys := RoundKeys(rk, rounds);
    ghost var inp0, out0 := inp[..], out[..];
    ProgressStart(c, keys, iv, counter, inp0, out0, len);
    var at, ctr := 0, counter;
    CounterStarts(counter);
    if len >= 16 * width {
      var base := Base(iv, keys[0]);
      while len - at >= 16 * width
        invariant 0 <= at <= len && at % 16 == 0
        invariant ctr == CounterAt(counter, at)
        invariant Progress(c, keys, iv, counter, inp0, out0, inp[..], out[..], at, len)
      {
        var b := GroupRounds(c, keys, base, ctr, width, iv);
        CtrStep(c, keys, iv, counter, ctr, inp0, out0, b, inp, out, at, len, 16 * width);
        CounterAdvance(counter, ctr, at, width);
        at, ctr := at + 16 * width, (ctr + width) % TWO_32;
      }
    }
    CtrTail(c, keys, iv, counter, ctr, inp0, out0, inp, out, at, len);
    ProgressDone(c, keys, iv, counter, inp0, out0, inp[..], out[..], len);
  }

  // What is left after the whole groups, block by block.
  method CtrTail(c: Cipher, keys: seq<Block>, iv: seq<Byte>, ghost counter: nat, ctr0: nat, ghost inp0: seq<Byte>,
                 ghost out0: seq<Byte>, inp: array<Byte>, out: array<Byte>, from: nat, len: nat)
    requires |keys| >= 2 && |iv| == 12 && from <= len <= inp.Length && len <= out.Length
    requires from % 16 == 0 && ctr0 == CounterAt(counter, from)
    requires Progress(c, keys, iv, counter, inp0, out0, inp[..], out[..], from, len)
    modifies out
    ensures Progress(c, keys, iv, counter, inp0, out0, inp[..], out[..], len, len)
  {
    hide KeyByte, InFlight, Progress, CounterAt, CounterBlock, Rounds;
    var at, ctr := from, ctr0;
    while at < len
      invariant 0 <= at <= len && (at % 16 == 0 || at == len)
      invariant at % 16 == 0 ==> ctr == CounterAt(counter, at)
      invariant Progress(c, keys, iv, counter, inp0, out0, inp[..], out[..], at, len)
      decreases len - at
    {
      var b := [Rounds(c, keys, |keys| - 2, CounterBlock(iv, ctr))];
      OneInFlight(c, keys, iv, ctr, |keys| - 2, b);
      var n := if len - at >= 16 then 16 else len - at;
      CtrStep(c, keys, iv, counter, ctr, inp0, out0, b, inp, out, at, len, n);
      CounterAdvance(counter, ctr, at, 1);
      at, ctr := at + n, (ctr + 1) % TWO_32;
    }
  }

  // The 32-bit counter of the block at this byte offset.
  function CounterAt(counter: nat, at: nat): nat {
    (counter + at / 16) % TWO_32
  }

  lemma CounterStarts(counter: nat)
    requires counter < TWO_32
    ensures CounterAt(counter, 0) == counter
  {
  }

  lemma CounterAdvance(counter: nat, ctr: nat, at: nat, n: nat)
    requires ctr == CounterAt(counter, at)
    ensures (ctr + n) % TWO_32 == CounterAt(counter, at + 16 * n)
  {
    assert (at + 16 * n) / 16 == at / 16 + n;
  }

  lemma OneInFlight(c: Cipher, keys: seq<Block>, nonce: seq<Byte>, counter: nat, r: nat, b: seq<Block>)
    requires r < |keys| && |nonce| == 12 && b == [Rounds(c, keys, r, CounterBlock(nonce, counter))]
    ensures InFlight(c, keys, nonce, counter, r, b)
  {
  }

  lemma ProgressStart(c: Cipher, keys: seq<Block>, nonce: seq<Byte>, counter: nat, inp: seq<Byte>, out: seq<Byte>, len: nat)
    requires |keys| >= 2 && |nonce| == 12 && len <= |inp| && len <= |out|
    ensures Progress(c, keys, nonce, counter, inp, out, inp, out, 0, len)
  {
  }

  lemma ProgressDone(c: Cipher, keys: seq<Block>, nonce: seq<Byte>, counter: nat, inp0: seq<Byte>, out0: seq<Byte>,
                     inp: seq<Byte>, out: seq<Byte>, len: nat)
    requires |keys| >= 2 && |nonce| == 12
    requires Progress(c, keys, nonce, counter, inp0, out0, inp, out, len, len)
    ensures out[..len] == Ctr(c, keys, nonce, counter, inp0[..len])
    ensures out[len..] == out0[len..]
  {
    hide KeyByte;
  }

  // The n bytes at at finished from the blocks in flight.
  method CtrStep(c: Cipher, keys: seq<Block>, ghost nonce: seq<Byte>, ghost counter: nat, ghost ctr: nat,
                 ghost inp0: seq<Byte>, ghost out0: seq<Byte>, b: seq<Block>,
                 inp: array<Byte>, out: array<Byte>, at: nat, ghost len: nat, n: nat)
    requires |keys| >= 2 && |nonce| == 12 && at % 16 == 0 && ctr == CounterAt(counter, at)
    requires InFlight(c, keys, nonce, ctr, |keys| - 2, b) && |b| == (n + 15) / 16
    requires Progress(c, keys, nonce, counter, inp0, out0, inp[..], out[..], at, len)
    requires at + n <= len <= inp.Length && len <= out.Length
    modifies out
    ensures Progress(c, keys, nonce, counter, inp0, out0, inp[..], out[..], at + n, len)
  {
    hide KeyByte, InFlight;
    FinishBlocks(c, keys, nonce, ctr, b, inp, out, at, n);
    forall p | at <= p < at + n
      ensures out[p] == inp0[p] ^ KeyByte(c, keys, nonce, counter, p)
    {
      var j := p - at;
      assert out[at + j] == old(inp[at + j]) ^ KeyByte(c, keys, nonce, ctr, j);
      KeyByteWraps(c, keys, nonce, counter + at / 16, j);
      KeyByteLater(c, keys, nonce, counter, at / 16, j);
    }
  }

  lemma SumWraps(a: nat, b: nat)
    ensures (a % TWO_32 + b) % TWO_32 == (a + b) % TWO_32
  {
    var low := a % TWO_32 + b;
    Quotient(a + b, TWO_32, a / TWO_32 + low / TWO_32, low % TWO_32);
  }

  lemma KeyByteWraps(c: Cipher, keys: seq<Block>, nonce: seq<Byte>, counter: nat, p: nat)
    requires |keys| >= 2 && |nonce| == 12
    ensures KeyByte(c, keys, nonce, counter % TWO_32, p) == KeyByte(c, keys, nonce, counter, p)
  {
    hide Encrypt, ToBigEndian;
    SumWraps(counter, p / 16);
  }
}
