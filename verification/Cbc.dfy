// Cipher block chaining (section 6.2 of NIST SP 800-38A), in place, with the
// equivalent inverse cipher on the way back.
module Cbc {
  import opened Bytes
  import opened CounterMode
  import opened AesRounds

  function Chain(c: Cipher, keys: seq<Block>, iv: Block, plain: seq<Block>): (r: seq<Block>)
    requires |keys| >= 2
    ensures |r| == |plain|
  {
    if plain == [] then []
    else
      var n := |plain| - 1;
      var front := Chain(c, keys, iv, plain[..n]);
      front + [Encrypt(c, keys, XorBlock(plain[n], Last(iv, front)))]
  }

  // C_i = E(P_i ^ C_(i-1)), with the vector before the first.
  lemma {:induction false} ChainAt(c: Cipher, keys: seq<Block>, iv: Block, plain: seq<Block>, i: nat)
    requires |keys| >= 2 && i < |plain|
    ensures var r := Chain(c, keys, iv, plain);
            r[i] == Encrypt(c, keys, XorBlock(plain[i], if i == 0 then iv else r[i - 1]))
  {
    hide Encrypt, XorBlock;
    if i < |plain| - 1 {
      ChainAt(c, keys, iv, plain[..|plain| - 1], i);
    }
  }

  // The block the next one is chained to.
  function Last(iv: Block, blocks: seq<Block>): Block {
    if blocks == [] then iv else blocks[|blocks| - 1]
  }

  function Unchain(s: SBox, dk: seq<Block>, iv: Block, cipher: seq<Block>): (r: seq<Block>)
    requires |dk| >= 2
    ensures |r| == |cipher|
  {
    seq(|cipher|, i requires 0 <= i < |cipher| => XorBlock(Decrypt(s, dk, cipher[i]), Last(iv, cipher[..i])))
  }

  lemma UnchainAppend(s: SBox, dk: seq<Block>, iv: Block, front: seq<Block>, b: Block)
    requires |dk| >= 2
    ensures Unchain(s, dk, iv, front + [b]) == Unchain(s, dk, iv, front) + [XorBlock(Decrypt(s, dk, b), Last(iv, front))]
  {
    hide Decrypt, XorBlock;
    var all := front + [b];
    assert all[..|front|] == front;
    forall i | 0 <= i < |front|
      ensures Last(iv, all[..i]) == Last(iv, front[..i])
    {
      assert all[..i] == front[..i];
    }
  }

  lemma {:induction false} UnchainUndoes(s: SBox, keys: seq<Block>, iv: Block, plain: seq<Block>)
    requires Inverts(s) && |keys| >= 2
    ensures Unchain(s, InverseKeys(keys), iv, Chain(AesCipher(s), keys, iv, plain)) == plain
  {
    hide Inverts, InverseKeys, Decrypt, Encrypt, AesCipher, XorBlock, Unchain;
    var c, dk := AesCipher(s), InverseKeys(keys);
    if plain == [] {
      assert |Unchain(s, dk, iv, [])| == 0;
    } else {
      var n := |plain| - 1;
      UnchainUndoes(s, keys, iv, plain[..n]);
      var front := Chain(c, keys, iv, plain[..n]);
      var x := XorBlock(plain[n], Last(iv, front));
      UnchainAppend(s, dk, iv, front, Encrypt(c, keys, x));
      DecryptUndoes(s, keys, x);
      XorBlockTwice(plain[n], Last(iv, front));
    }
  }

  // ----- buffers -----

  function DataBlocks(data: seq<Byte>): (b: seq<Block>)
    ensures |b| == |data| / 16
  {
    seq(|data| / 16, i requires 0 <= i < |data| / 16 => data[16 * i..16 * i + 16])
  }

  // data0's whole blocks before block n replaced by these, the rest of it as it was.
  ghost predicate Replaced(data0: seq<Byte>, data: seq<Byte>, n: nat, done: seq<Block>) {
    && |data| == |data0| && 16 * n <= |data| && |done| == n
    && (forall i :: 0 <= i < n ==> data[16 * i..16 * i + 16] == done[i])
    && data[16 * n..] == data0[16 * n..]
  }

  lemma ReplacedAll(data0: seq<Byte>, data: seq<Byte>, done: seq<Block>)
    requires Replaced(data0, data, |data0| / 16, done)
    ensures DataBlocks(data) == done
    ensures |data| == |data0| && data[16 * (|data0| / 16)..] == data0[16 * (|data0| / 16)..]
  {
  }

  lemma ReplacedStart(data: seq<Byte>)
    ensures Replaced(data, data, 0, [])
  {
  }

  lemma ReplacedNext(data0: seq<Byte>, data1: seq<Byte>, data2: seq<Byte>, n: nat, done: seq<Block>, b: Block)
    requires Replaced(data0, data1, n, done) && 16 * n + 16 <= |data0|
    requires |data2| == |data1| && data2[..16 * n] == data1[..16 * n] && data2[16 * n + 16..] == data1[16 * n + 16..]
    requires data2[16 * n..16 * n + 16] == b
    ensures Replaced(data0, data2, n + 1, done + [b])
  {
    forall i | 0 <= i < n
      ensures data2[16 * i..16 * i + 16] == done[i]
    {
      assert data2[16 * i..16 * i + 16] == data2[..16 * n][16 * i..16 * i + 16];
      assert data1[16 * i..16 * i + 16] == data1[..16 * n][16 * i..16 * i + 16];
    }
    assert data2[16 * n + 16..] == data0[16 * n + 16..] by {
      assert data1[16 * n + 16..] == data1[16 * n..][16..];
      assert data0[16 * n + 16..] == data0[16 * n..][16..];
    }
  }

  // Block n of the buffer read, and written.
  method ReadBlock(a: array<Byte>, n: nat, ghost data0: seq<Byte>, ghost done: seq<Block>) returns (b: Block)
    requires Replaced(data0, a[..], n, done) && n < |data0| / 16
    ensures b == DataBlocks(data0)[n]
  {
    ReplacedTail(data0, a[..], n, done);
    b := a[16 * n..16 * n + 16];
  }

  method WriteBlock(a: array<Byte>, n: nat, b: Block, ghost data0: seq<Byte>, ghost done: seq<Block>)
    requires Replaced(data0, a[..], n, done) && n < |data0| / 16
    modifies a
    ensures Replaced(data0, a[..], n + 1, done + [b])
  {
    ghost var before := a[..];
    StoreBytes(a, 16 * n, b);
    ReplacedNext(data0, before, a[..], n, done, b);
  }

  method SetVector(iv: array<Byte>, b: Block)
    requires iv.Length == 16
    modifies iv
    ensures iv[..] == b
  {
    StoreBytes(iv, 0, b);
    assert iv[..] == iv[0..16];
  }

  // ----- the two calls -----

  // proven_crypto_aes_cbc_encrypt
  method CbcEncrypt(s: SBox, rk: seq<Byte>, rounds: nat, iv: array<Byte>, data: array<Byte>)
    requires rounds >= 1 && |rk| == 16 * (rounds + 1) && iv.Length == 16 && iv != data
    modifies iv, data
    ensures DataBlocks(data[..]) == Chain(AesCipher(s), RoundKeys(rk, rounds), old(iv[..]), old(DataBlocks(data[..])))
    ensures data[16 * (data.Length / 16)..] == old(data[16 * (data.Length / 16)..])
    ensures iv[..] == Last(old(iv[..]), DataBlocks(data[..]))
  {
    hide RoundKeys, Encrypt, AesCipher, Replaced, XorBlock, Chain, DataBlocks;
    var keys, c := RoundKeys(rk, rounds), AesCipher(s);
    ghost var data0, iv0 := data[..], iv[..];
    ghost var plain := DataBlocks(data0);
    ReplacedStart(data0);
    ChainNothing(c, keys, iv0, plain);
    for n := 0 to data.Length / 16
      invariant Replaced(data0, data[..], n, Chain(c, keys, iv0, plain[..n]))
      invariant iv[..] == Last(iv0, Chain(c, keys, iv0, plain[..n]))
    {
      ghost var done := Chain(c, keys, iv0, plain[..n]);
      var x := ReadBlock(data, n, data0, done);
      var b := Encrypt(c, keys, XorBlock(x, iv[..]));
      ChainNext(c, keys, iv0, plain, n);
      WriteBlock(data, n, b, data0, done);
      SetVector(iv, b);
    }
    assert plain[..data.Length / 16] == plain;
    ReplacedAll(data0, data[..], Chain(c, keys, iv0, plain));
  }

  lemma ChainNothing(c: Cipher, keys: seq<Block>, iv: Block, plain: seq<Block>)
    requires |keys| >= 2
    ensures Chain(c, keys, iv, plain[..0]) == []
  {
  }

  lemma ChainNext(c: Cipher, keys: seq<Block>, iv: Block, plain: seq<Block>, n: nat)
    requires |keys| >= 2 && n < |plain|
    ensures var done := Chain(c, keys, iv, plain[..n]);
            Chain(c, keys, iv, plain[..n + 1]) == done + [Encrypt(c, keys, XorBlock(plain[n], Last(iv, done)))]
  {
    hide Encrypt, XorBlock;
    assert plain[..n + 1][..n] == plain[..n];
  }

  lemma NothingYet(iv: Block, cipher: seq<Block>, plain: seq<Block>)
    ensures Last(iv, cipher[..0]) == iv && plain[..0] == []
  {
  }

  lemma ReplacedTail(data0: seq<Byte>, data: seq<Byte>, n: nat, done: seq<Block>)
    requires Replaced(data0, data, n, done) && 16 * n + 16 <= |data0|
    ensures |data| == |data0| && data[16 * n..16 * n + 16] == data0[16 * n..16 * n + 16]
  {
    assert data[16 * n..16 * n + 16] == data[16 * n..][..16];
    assert data0[16 * n..16 * n + 16] == data0[16 * n..][..16];
  }

  // The keys of the inverse cipher, made for the call.
  method MakeInverseKeys(rk: seq<Byte>, rounds: nat) returns (dk: seq<Block>)
    requires rounds >= 1 && |rk| == 16 * (rounds + 1)
    ensures dk == InverseKeys(RoundKeys(rk, rounds))
  {
    hide InvMixColumns;
    ghost var want := InverseKeys(RoundKeys(rk, rounds));
    dk := [rk[16 * rounds..16 * rounds + 16]];
    for r := 1 to rounds
      invariant |dk| == r && dk == want[..r]
    {
      dk := dk + [InvMixColumns(rk[16 * (rounds - r)..16 * (rounds - r) + 16])];
    }
    dk := dk + [rk[..16]];
  }

  // proven_sys_aes_cbc_decrypt
  method CbcDecrypt(s: SBox, rk: seq<Byte>, rounds: nat, iv: array<Byte>, data: array<Byte>)
    requires rounds >= 1 && |rk| == 16 * (rounds + 1) && iv.Length == 16 && iv != data
    modifies iv, data
    ensures DataBlocks(data[..]) ==
            Unchain(s, InverseKeys(RoundKeys(rk, rounds)), old(iv[..]), old(DataBlocks(data[..])))
    ensures data[16 * (data.Length / 16)..] == old(data[16 * (data.Length / 16)..])
    ensures iv[..] == Last(old(iv[..]), old(DataBlocks(data[..])))
  {
    hide RoundKeys, InverseKeys, Decrypt, Replaced, XorBlock, Unchain, DataBlocks, Last;
    var dk := MakeInverseKeys(rk, rounds);
    ghost var data0, iv0 := data[..], iv[..];
    ghost var cipher := DataBlocks(data0);
    ghost var plain := Unchain(s, dk, iv0, cipher);
    var prev: Block := iv[..];
    ReplacedStart(data0);
    NothingYet(iv0, cipher, plain);
    for n := 0 to data.Length / 16
      invariant Replaced(data0, data[..], n, plain[..n])
      invariant prev == Last(iv0, cipher[..n])
      invariant iv[..] == iv0
    {
      var c := ReadBlock(data, n, data0, plain[..n]);
      var b := Decrypt(s, dk, c);
      UnchainNext(s, dk, iv0, cipher, n);
      WriteBlock(data, n, XorBlock(b, prev), data0, plain[..n]);
      prev := c;
    }
    assert plain[..data.Length / 16] == plain;
    ReplacedAll(data0, data[..], plain);
    assert cipher[..data.Length / 16] == cipher;
    SetVector(iv, prev);
  }

  lemma UnchainNext(s: SBox, dk: seq<Block>, iv: Block, cipher: seq<Block>, n: nat)
    requires |dk| >= 2 && n < |cipher|
    ensures var plain := Unchain(s, dk, iv, cipher);
            plain[..n + 1] == plain[..n] + [XorBlock(Decrypt(s, dk, cipher[n]), Last(iv, cipher[..n]))]
    ensures Last(iv, cipher[..n + 1]) == cipher[n]
  {
    hide Decrypt, XorBlock;
  }

  // Decryption after encryption with the same initial vector gives the data back, and both calls
  // leave the last ciphertext block in the vector.
  method EncryptThenDecrypt(s: SBox, rk: seq<Byte>, rounds: nat, iv: array<Byte>, iv': array<Byte>, data: array<Byte>)
    requires Inverts(s) && rounds >= 1 && |rk| == 16 * (rounds + 1)
    requires iv.Length == 16 && iv'.Length == 16 && iv != data && iv' != data && iv != iv' && iv[..] == iv'[..]
    modifies iv, iv', data
    ensures data[..] == old(data[..]) && iv[..] == iv'[..]
  {
    hide Chain, Unchain, Inverts, RoundKeys, InverseKeys, DataBlocks;
    CbcEncrypt(s, rk, rounds, iv, data);
    CbcDecrypt(s, rk, rounds, iv', data);
    UnchainUndoes(s, RoundKeys(rk, rounds), old(iv[..]), old(DataBlocks(data[..])));
    SameBlocks(data[..], old(data[..]));
  }

  lemma SameBlocks(a: seq<Byte>, b: seq<Byte>)
    requires |a| == |b| && DataBlocks(a) == DataBlocks(b)
    requires a[16 * (|a| / 16)..] == b[16 * (|a| / 16)..]
    ensures a == b
  {
    forall p | 0 <= p < |a|
      ensures a[p] == b[p]
    {
      var n := |a| / 16;
      if p < 16 * n {
        assert DataBlocks(a)[p / 16][p % 16] == a[p] && DataBlocks(b)[p / 16][p % 16] == b[p];
      } else {
        assert a[p] == a[16 * n..][p - 16 * n] && b[p] == b[16 * n..][p - 16 * n];
      }
    }
  }

  // ----- the standard's equations on the bytes of the buffers -----

  lemma EncryptedBlock(c: Cipher, keys: seq<Block>, iv: Block, plain: seq<Byte>, cipher: seq<Byte>, i: nat)
    requires |keys| >= 2 && |plain| == |cipher| && 16 * i + 16 <= |plain|
    requires DataBlocks(cipher) == Chain(c, keys, iv, DataBlocks(plain))
    ensures cipher[16 * i..16 * i + 16] ==
            Encrypt(c, keys, XorBlock(plain[16 * i..16 * i + 16], if i == 0 then iv else cipher[16 * i - 16..16 * i]))
  {
    hide Encrypt, XorBlock, Chain;
    ChainAt(c, keys, iv, DataBlocks(plain), i);
    BlockAt(plain, i);
    BlockAt(cipher, i);
    if i > 0 { BlockAt(cipher, i - 1); }
  }

  lemma DecryptedBlock(s: SBox, dk: seq<Block>, iv: Block, cipher: seq<Byte>, plain: seq<Byte>, i: nat)
    requires |dk| >= 2 && |plain| == |cipher| && 16 * i + 16 <= |plain|
    requires DataBlocks(plain) == Unchain(s, dk, iv, DataBlocks(cipher))
    ensures plain[16 * i..16 * i + 16] ==
            XorBlock(Decrypt(s, dk, cipher[16 * i..16 * i + 16]), if i == 0 then iv else cipher[16 * i - 16..16 * i])
  {
    hide Decrypt, XorBlock;
    BlockAt(plain, i);
    BlockAt(cipher, i);
    if i > 0 { BlockAt(cipher, i - 1); }
  }

  lemma BlockAt(data: seq<Byte>, i: nat)
    requires 16 * i + 16 <= |data|
    ensures i < |DataBlocks(data)| && DataBlocks(data)[i] == data[16 * i..16 * i + 16]
  {
  }
}
