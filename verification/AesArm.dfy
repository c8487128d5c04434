// The AArch64 form of the cipher: the instructions add the round key first, where x86 adds it last.
// Its counter mode takes one block at a time.
module AesArm {
  import opened Powers
  import opened Bytes
  import opened CounterMode
  import opened AesRounds

  // AESE; AESMC is MixColumns alone.
  function Aese(s: SBox, b: Block, k: Block): Block { SubShift(s, XorBlock(b, k)) }

  // aes_block: the same cipher as with the x86 instructions.
  method AesBlock(s: SBox, keys: seq<Block>, block: Block) returns (b: Block)
    requires |keys| >= 2
    ensures b == Encrypt(AesCipher(s), keys, block)
  {
    hide XorBlock, SubShift, MixColumns;
    var rounds := |keys| - 1;
    ghost var c := AesCipher(s);
    b := block;
    for r := 0 to rounds - 1
      invariant XorBlock(b, keys[r]) == Rounds(c, keys, r, block)
    {
      b := MixColumns(Aese(s, b, keys[r]));
      assert Rounds(c, keys, r + 1, block) == AesEnc(s, Rounds(c, keys, r, block), keys[r + 1]);
    }
    b := Aese(s, b, keys[rounds - 1]);
    b := XorBlock(b, keys[rounds]);
  }

  // The keystream of one block, or of its first bytes, XORed.
  method BlockStep(ghost c: Cipher, ghost keys: seq<Block>, ghost nonce: seq<Byte>, ghost counter: nat, ghost ctr: nat,
                   ghost inp0: seq<Byte>, ghost out0: seq<Byte>, ks: Block,
                   inp: array<Byte>, out: array<Byte>, at: nat, ghost len: nat, n: nat)
    requires |keys| >= 2 && |nonce| == 12 && at % 16 == 0 && ctr == CounterAt(counter, at)
    requires ks == Encrypt(c, keys, CounterBlock(nonce, ctr)) && n <= 16
    requires Progress(c, keys, nonce, counter, inp0, out0, inp[..], out[..], at, len)
    requires at + n <= len <= inp.Length && len <= out.Length
    modifies out
    ensures Progress(c, keys, nonce, counter, inp0, out0, inp[..], out[..], at + n, len)
  {
    hide KeyByte;
    XorStore(inp, out, at, ks, n);
    forall p | at <= p < at + n
      ensures out[p] == inp0[p] ^ KeyByte(c, keys, nonce, counter, p)
    {
      var j := p - at;
      FirstKeyByte(c, keys, nonce, ctr, j);
      KeyByteWraps(c, keys, nonce, counter + at / 16, j);
      KeyByteLater(c, keys, nonce, counter, at / 16, j);
    }
  }

  // proven_sys_aes_ctr on AArch64: what the x86 form computes, whatever its width.
  method CtrXor(s: SBox, rk: seq<Byte>, rounds: nat, iv: seq<Byte>, counter: nat,
                inp: array<Byte>, out: array<Byte>, len: nat)
    requires rounds >= 1 && |rk| == 16 * (rounds + 1) && |iv| == 12 && counter < TWO_32
    requires len <= inp.Length && len <= out.Length
    modifies out
    ensures out[..len] == Ctr(AesCipher(s), RoundKeys(rk, rounds), iv, counter, old(inp[..len]))
    ensures out[len..] == old(out[len..])
  {
    hide KeyByte, RoundKeys, Progress, CounterAt, CounterBlock, Encrypt, AesCipher;
    var keys := RoundKeys(rk, rounds);
    ghost var c, inp0, out0 := AesCipher(s), inp[..], out[..];
    ProgressStart(c, keys, iv, counter, inp0, out0, len);
    CounterStarts(counter);
    var at, ctr := 0, counter;
    while at < len
      invariant 0 <= at <= len && (at % 16 == 0 || at == len) && ctr < TWO_32
      invariant at % 16 == 0 ==> ctr == CounterAt(counter, at)
      invariant Progress(c, keys, iv, counter, inp0, out0, inp[..], out[..], at, len)
      decreases len - at
    {
      var ks := AesBlock(s, keys, CounterBlock(iv, ctr));
      var n := if len - at >= 16 then 16 else len - at;
      BlockStep(c, keys, iv, counter, ctr, inp0, out0, ks, inp, out, at, len, n);
      CounterAdvance(counter, ctr, at, 1);
      at, ctr := at + n, (ctr + 1) % TWO_32;
    }
    ProgressDone(c, keys, iv, counter, inp0, out0, inp[..], out[..], len);
  }
}
