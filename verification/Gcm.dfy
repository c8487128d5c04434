// Galois/counter mode in one pass: section 7 of NIST SP 800-38D with a 96-bit
// nonce. The cipher's rounds and the hash's products are interleaved; sealing
// hashes one group late, opening hashes the group's own ciphertext before the
// plaintext is stored over it.
module Gcm {
  import opened Powers
  import opened Bytes
  import opened Gf2
  import opened GcmX86
  import opened Ghash
  import opened CounterMode

  const TWO_36: nat := 0x10_0000_0000
  const TWO_61: nat := 0x2000_0000_0000_0000

  // ----- the standard -----

  // The hash of A || 0^v || C || 0^u || lengths, masked with the first counter block.
  function Tag(c: Cipher, keys: seq<Block>, h: Element, nonce: seq<Byte>, aad: seq<Byte>, cipher: seq<Byte>, lens: Block): (t: seq<Byte>)
    requires |keys| >= 2 && |nonce| == 12
    ensures |t| == 16
  {
    XorBytes(ToBigEndian(16, Hash(h, 0, Blocks(Padded(aad)) + Blocks(Padded(cipher)) + [Load(lens)])),
             Encrypt(c, keys, CounterBlock(nonce, 1)))
  }

  function NistLengths(aad: nat, len: nat): Block {
    ToBigEndian(8, 8 * aad) + ToBigEndian(8, 8 * len)
  }

  // The bits of the additional data and of the text, eight bytes each, the highest first.
  lemma NistLengthsAre(aad: nat, len: nat)
    requires aad < TWO_61 && len < TWO_61
    ensures BigEndian(NistLengths(aad, len)[..8]) == 8 * aad && BigEndian(NistLengths(aad, len)[8..]) == 8 * len
  {
    hide BigEndian, ToBigEndian;
    Pow2Values();
    ToBigEndianRoundTrip(8, 8 * aad);
    ToBigEndianRoundTrip(8, 8 * len);
    var b := NistLengths(aad, len);
    assert b[..8] == ToBigEndian(8, 8 * aad) && b[8..] == ToBigEndian(8, 8 * len);
  }

  // The standard's own form: counter mode from the first counter block over the hash of one padded
  // string, followed by the text, gives the tag followed by the ciphertext.
  lemma TagIsStandard(c: Cipher, keys: seq<Block>, h: Element, nonce: seq<Byte>, aad: seq<Byte>, plain: seq<Byte>, lens: Block)
    requires |keys| >= 2 && |nonce| == 12
    ensures var cipher := Ctr(c, keys, nonce, 2, plain);
            && (|Padded(aad)| + |Padded(cipher)|) % 16 == 0
            && var hash := ToBigEndian(16, Hash(h, 0, Blocks(Padded(aad) + Padded(cipher) + lens)));
               Ctr(c, keys, nonce, 1, hash + plain) == Tag(c, keys, h, nonce, aad, cipher, lens) + cipher
  {
    hide KeyByte, Hash, Load, ToBigEndian, Padded, CounterBlock, Encrypt;
    var cipher := Ctr(c, keys, nonce, 2, plain);
    var a, b := Padded(aad), Padded(cipher);
    PaddedIs(aad);
    PaddedIs(cipher);
    BothCounts(a, b, |a| / 16, |b| / 16);
    BlocksAppend(a, b);
    BlocksAppend(a + b, lens);
    OneBlock(lens);
    var hash := ToBigEndian(16, Hash(h, 0, Blocks(a + b + lens)));
    var tag, all := Tag(c, keys, h, nonce, aad, cipher, lens), Ctr(c, keys, nonce, 1, hash + plain);
    forall p | 0 <= p < |all|
      ensures all[p] == (tag + cipher)[p]
    {
      if p < 16 {
        FirstKeyByte(c, keys, nonce, 1, p);
      } else {
        KeyByteLater(c, keys, nonce, 1, 1, p - 16);
      }
    }
  }

  lemma OneBlock(b: Block)
    ensures |b| % 16 == 0 && Blocks(b) == [Load(b)]
  {
    hide Load;
    assert b[0..16] == b;
  }

  // ----- the lengths block of the code -----

  // The bytes of the groups that the main loop takes.
  function WholeGroups(len: nat, width: nat): nat
    requires width == 4 || width == 8
  {
    if width == 4 then len / 64 * 64 else len / 128 * 128
  }

  // The bits of data: the groups are counted by the 32-bit block counter.
  function CodeLengths(aad: nat, len: nat, width: nat): Block
    requires width == 4 || width == 8
  {
    var done := WholeGroups(len, width);
    var counter := CounterAt(2, done);
    var blocks := (counter + TWO_32 - 2) % TWO_32;
    ToBigEndian(8, 8 * aad % TWO_64) + ToBigEndian(8, (blocks * 16 + (len - done)) * 8 % TWO_64)
  }

  // What one call leaves: the ciphertext that was hashed.
  function Hashed(c: Cipher, keys: seq<Block>, nonce: seq<Byte>, inp: seq<Byte>, decrypt: bool): seq<Byte>
    requires |keys| >= 2 && |nonce| == 12
  {
    if decrypt then inp else Ctr(c, keys, nonce, 2, inp)
  }

  // ----- one group -----

  // The rounds of a group of counter blocks and, one product a round, the hash of a group of ciphertext.
  method GroupWithHash(c: Cipher, keys: seq<Block>, base: Block, counter: nat, width: nat, ghost nonce: seq<Byte>,
                       ghost h: Element, y: Element, hp: seq<Element>, hsrc: Option<seq<Byte>>)
    returns (b: seq<Block>, y': Element)
    requires |keys| >= 2 && |nonce| == 12 && base == Base(nonce, keys[0])
    requires (width == 4 || width == 8) && width + 2 <= |keys|
    requires |hp| == 8 && ArePowers(h, hp)
    requires hsrc.Some? ==> |hsrc.value| == 16 * width
    ensures |b| == width && InFlight(c, keys, nonce, counter, |keys| - 2, b)
    ensures y' == if hsrc.Some? then Hash(h, y, Blocks(hsrc.value)) else y
  {
    hide CounterBlock, Base, Times, Plus, GfProduct, GfReduce, Partial, Hash, Power, Load, InFlight;
    b := StartBlocks(base, counter, width, nonce, keys[0]);
    StartedInFlight(c, keys, nonce, counter, b);
    var lo, hi := 0, 0;
    ghost var xs := if hsrc.Some? then Blocks(hsrc.value) else [];
    if hsrc.Some? { PartialEmpty(h, y, xs); }
    for r := 1 to |keys| - 1
      invariant |b| == width && InFlight(c, keys, nonce, counter, r - 1, b)
      invariant hsrc.Some? ==> Partial(h, y, xs, if r - 1 < width then r - 1 else width, lo, hi)
    {
      var b' := RoundAll(c, b, keys[r]);
      InFlightNext(c, keys, nonce, counter, r - 1, b, b');
      b := b';
      if hsrc.Some? && r <= width {
        var x := Load(hsrc.value[16 * (r - 1)..16 * (r - 1) + 16]);
        if r == 1 { x := Plus(x, y); }
        var (l, g) := GfProduct(x, hp[width - r]);
        PartialAdd(h, y, xs, r - 1, lo, hi, x, hp[width - r]);
        lo, hi := Xor(lo, l), Xor(hi, g);
      }
    }
    y' := y;
    if hsrc.Some? {
      PartialFull(h, y, xs, lo, hi);
      y' := GfReduce(lo, hi);
    }
  }

  lemma StartedInFlight(c: Cipher, keys: seq<Block>, nonce: seq<Byte>, counter: nat, b: seq<Block>)
    requires |keys| >= 2 && |nonce| == 12
    requires forall i :: 0 <= i < |b| ==> b[i] == XorBlock(CounterBlock(nonce, counter + i), keys[0])
    ensures InFlight(c, keys, nonce, counter, 0, b)
  {
    hide CounterBlock, XorBlock;
  }

  // ----- the hash's progress -----

  // y has taken in the first n bytes of the ciphertext.
  ghost predicate HashedTo(h: Element, y0: Element, y: Element, cipher: seq<Byte>, n: nat) {
    n <= |cipher| && n % 16 == 0 && y == Hash(h, y0, Blocks(cipher[..n]))
  }

  lemma HashedStart(h: Element, y0: Element, cipher: seq<Byte>)
    ensures HashedTo(h, y0, y0, cipher, 0)
  {
  }

  lemma HashedMore(h: Element, y0: Element, y: Element, cipher: seq<Byte>, n: nat, more: seq<Byte>, y': Element)
    requires HashedTo(h, y0, y, cipher, n)
    requires |more| % 16 == 0 && n + |more| <= |cipher| && more == cipher[n..n + |more|]
    requires y' == Hash(h, y, Blocks(more))
    ensures HashedTo(h, y0, y', cipher, n + |more|)
  {
    hide Hash, Load;
    assert cipher[..n] + more == cipher[..n + |more|];
    BlocksAppend(cipher[..n], more);
    HashAppend(h, y0, Blocks(cipher[..n]), Blocks(more));
  }

  lemma HashedAll(h: Element, aad: seq<Byte>, y0: Element, y: Element, cipher: seq<Byte>, n: nat, lens: Block, y': Element)
    requires y0 == Hash(h, 0, Blocks(Padded(aad))) && HashedTo(h, y0, y, cipher, n)
    requires y' == Hash(h, y, Blocks(Padded(cipher[n..])) + [Load(lens)])
    ensures y' == Hash(h, 0, Blocks(Padded(aad)) + Blocks(Padded(cipher)) + [Load(lens)])
  {
    hide Hash, Load, Padded;
    var a, b := Blocks(Padded(aad)), Blocks(cipher[..n]);
    var rest := Blocks(Padded(cipher[n..])) + [Load(lens)];
    PaddedAppend(cipher, n);
    HashAppend(h, y0, b, rest);
    HashAppend(h, 0, a, b + rest);
    assert a + (b + rest) == a + Blocks(Padded(cipher)) + [Load(lens)];
  }

  // ----- the whole call -----

  // Where the hash stands when the cipher has done at bytes: level when opening, one group behind when sealing.
  ghost function HashPoint(decrypt: bool, prev: Option<nat>, at: nat): nat {
    if decrypt then at else if prev.Some? then prev.value else 0
  }

  // The group to hash beside the next group's rounds.
  method HashSource(decrypt: bool, inp: array<Byte>, out: array<Byte>, at: nat, prev: Option<nat>, width: nat)
    returns (hsrc: Option<seq<Byte>>)
    requires at + 16 * width <= inp.Length
    requires prev.Some? ==> prev.value + 16 * width <= out.Length
    ensures hsrc == if decrypt then Some(inp[at..at + 16 * width])
                    else if prev.Some? then Some(out[prev.value..prev.value + 16 * width])
                    else None
  {
    if decrypt {
      hsrc := Some(inp[at..at + 16 * width]);
    } else if prev.Some? {
      hsrc := Some(out[prev.value..prev.value + 16 * width]);
    } else {
      hsrc := None;
    }
  }

  // Finished output is final ciphertext (or plaintext), and input not yet reached is original.
  lemma ProgressBytes(c: Cipher, keys: seq<Block>, nonce: seq<Byte>, inp0: seq<Byte>, out0: seq<Byte>,
                      inp: seq<Byte>, out: seq<Byte>, at: nat, len: nat, from: nat, to: nat)
    requires |keys| >= 2 && |nonce| == 12 && from <= to <= len
    requires Progress(c, keys, nonce, 2, inp0, out0, inp, out, at, len)
    ensures to <= at ==> out[from..to] == Ctr(c, keys, nonce, 2, inp0[..len])[from..to]
    ensures at <= from ==> inp[from..to] == inp0[..len][from..to]
  {
    hide KeyByte;
    var r := Ctr(c, keys, nonce, 2, inp0[..len]);
    forall p | from <= p < to <= at
      ensures out[p] == r[p]
    {
    }
    forall p | at <= from <= p < to
      ensures inp[p] == inp0[..len][p]
    {
    }
  }

  // The loop over whole groups.
  method Groups(c: Cipher, keys: seq<Block>, base: Block, ghost nonce: seq<Byte>, ghost h: Element, y0: Element,
                hp: seq<Element>, inp: array<Byte>, out: array<Byte>, len: nat, decrypt: bool, width: nat)
    returns (y: Element, at: nat)
    requires |keys| >= 2 && |nonce| == 12 && base == Base(nonce, keys[0])
    requires (width == 4 || width == 8) && width + 2 <= |keys|
    requires |hp| == 8 && ArePowers(h, hp)
    requires len <= inp.Length && len <= out.Length
    modifies out
    ensures at == WholeGroups(len, width)
    ensures Progress(c, keys, nonce, 2, old(inp[..]), old(out[..]), inp[..], out[..], at, len)
    ensures HashedTo(h, y0, y, Hashed(c, keys, nonce, old(inp[..len]), decrypt), at)
  {
    hide KeyByte, InFlight, Base, Progress, CounterAt, HashedTo, Hash, ArePowers, Ctr;
    ghost var inp0, out0 := inp[..], out[..];
    ghost var cipher := Hashed(c, keys, nonce, inp0[..len], decrypt);
    ProgressStart(c, keys, nonce, 2, inp0, out0, len);
    CounterStarts(2);
    HashedStart(h, y0, cipher);
    y, at := y0, 0;
    var counter := 2;
    var prev: Option<nat> := None;
    while len - at >= 16 * width
      invariant 0 <= at <= len && at % (16 * width) == 0 && at % 16 == 0
      invariant counter == CounterAt(2, at)
      invariant prev == if at == 0 then None else Some(at - 16 * width)
      invariant Progress(c, keys, nonce, 2, inp0, out0, inp[..], out[..], at, len)
      invariant HashedTo(h, y0, y, cipher, HashPoint(decrypt, prev, at))
    {
      var b;
      b, y := HashedGroup(c, keys, base, counter, nonce, h, y0, y, hp, inp0, out0, inp, out, at, len, decrypt, prev, width);
      CtrStep(c, keys, nonce, 2, counter, inp0, out0, b, inp, out, at, len, 16 * width);
      CounterAdvance(2, counter, at, width);
      prev := Some(at);
      GroupAligned(at, width);
      at, counter := at + 16 * width, (counter + width) % TWO_32;
    }
    AllWholeGroups(len, at, width);
    if !decrypt && prev.Some? {
      ProgressBytes(c, keys, nonce, inp0, out0, inp[..], out[..], at, len, prev.value, prev.value + 16 * width);
      y := LastGroup(h, y0, y, hp, cipher, prev.value, out[prev.value..prev.value + 16 * width], width);
    }
  }

  // The rounds of one group, beside the hash of this group or of the one before it.
  method HashedGroup(c: Cipher, keys: seq<Block>, base: Block, counter: nat, ghost nonce: seq<Byte>, ghost h: Element,
                     ghost y0: Element, y: Element, hp: seq<Element>, ghost inp0: seq<Byte>, ghost out0: seq<Byte>,
                     inp: array<Byte>, out: array<Byte>, at: nat, ghost len: nat, decrypt: bool, prev: Option<nat>, width: nat)
    returns (b: seq<Block>, y': Element)
    requires |keys| >= 2 && |nonce| == 12 && base == Base(nonce, keys[0]) && |hp| == 8 && ArePowers(h, hp)
    requires (width == 4 || width == 8) && width + 2 <= |keys|
    requires at + 16 * width <= len <= inp.Length && len <= out.Length && len <= |inp0|
    requires prev == if at == 0 then None else Some(at - 16 * width)
    requires at == 0 || at >= 16 * width
    requires Progress(c, keys, nonce, 2, inp0, out0, inp[..], out[..], at, len)
    requires HashedTo(h, y0, y, Hashed(c, keys, nonce, inp0[..len], decrypt), HashPoint(decrypt, prev, at))
    ensures |b| == width && InFlight(c, keys, nonce, counter, |keys| - 2, b)
    ensures HashedTo(h, y0, y', Hashed(c, keys, nonce, inp0[..len], decrypt), HashPoint(decrypt, Some(at), at + 16 * width))
  {
    hide KeyByte, InFlight, Base, Progress, HashedTo, Hash, ArePowers, Ctr;
    ghost var cipher := Hashed(c, keys, nonce, inp0[..len], decrypt);
    var hsrc := HashSource(decrypt, inp, out, at, prev, width);
    SourceIsCipher(c, keys, nonce, inp0, out0, inp[..], out[..], at, len, decrypt, prev, width);
    b, y' := GroupWithHash(c, keys, base, counter, width, nonce, h, y, hp, hsrc);
    if hsrc.Some? {
      HashedMore(h, y0, y, cipher, HashPoint(decrypt, prev, at), hsrc.value, y');
    }
  }

  // The group written last, hashed after the loop.
  method LastGroup(ghost h: Element, ghost y0: Element, y: Element, hp: seq<Element>, ghost cipher: seq<Byte>, ghost at: nat,
                   group: seq<Byte>, width: nat) returns (y': Element)
    requires 1 <= width <= |hp| && ArePowers(h, hp) && |group| == 16 * width
    requires HashedTo(h, y0, y, cipher, at) && at + 16 * width <= |cipher| && group == cipher[at..at + 16 * width]
    ensures HashedTo(h, y0, y', cipher, at + 16 * width)
  {
    hide HashedTo, Hash, ArePowers;
    y' := GfFold(h, y, hp, group, width);
    assert group[..16 * width] == group;
    HashedMore(h, y0, y, cipher, at, group, y');
  }

  lemma GroupAligned(at: nat, width: nat)
    requires (width == 4 || width == 8) && at % (16 * width) == 0
    ensures (at + 16 * width) % (16 * width) == 0 && (at + 16 * width) % 16 == 0
  {
    var g, k := 16 * width, at / (16 * width);
    Quotient(at + g, g, k + 1, 0);
    if width == 4 {
      Quotient(at + 64, 16, 4 * (k + 1), 0);
    } else {
      Quotient(at + 128, 16, 8 * (k + 1), 0);
    }
  }

  lemma AllWholeGroups(len: nat, at: nat, width: nat)
    requires width == 4 || width == 8
    requires at <= len < at + 16 * width && at % (16 * width) == 0
    ensures at == WholeGroups(len, width)
  {
    var g, k := 16 * width, at / (16 * width);
    assert at == g * k;
    Quotient(len, g, k, len - at);
    if width == 4 {
      assert g == 64;
    } else {
      assert g == 128;
    }
  }

  lemma SourceIsCipher(c: Cipher, keys: seq<Block>, nonce: seq<Byte>, inp0: seq<Byte>, out0: seq<Byte>,
                       inp: seq<Byte>, out: seq<Byte>, at: nat, len: nat, decrypt: bool, prev: Option<nat>, width: nat)
    requires |keys| >= 2 && |nonce| == 12 && at + 16 * width <= len <= |inp0|
    requires prev == if at == 0 then None else Some(at - 16 * width)
    requires at == 0 || at >= 16 * width
    requires Progress(c, keys, nonce, 2, inp0, out0, inp, out, at, len)
    ensures |inp| >= len && |out| >= len
    ensures var cipher := Hashed(c, keys, nonce, inp0[..len], decrypt);
            decrypt ==> inp[at..at + 16 * width] == cipher[at..at + 16 * width]
    ensures var cipher := Hashed(c, keys, nonce, inp0[..len], decrypt);
            !decrypt && prev.Some? ==>
              out[prev.value..prev.value + 16 * width] == cipher[prev.value..prev.value + 16 * width]
  {
    hide KeyByte;
    ProgressBytes(c, keys, nonce, inp0, out0, inp, out, at, len, at, at + 16 * width);
    if at != 0 {
      ProgressBytes(c, keys, nonce, inp0, out0, inp, out, at, len, at - 16 * width, at);
    }
  }

  // proven_sys_aes_gcm. inp may be out.
  method OnePass(c: Cipher, rk: seq<Byte>, rounds: nat, h: seq<Byte>, hpow: seq<Byte>, nonce: seq<Byte>, aad: seq<Byte>,
                 inp: array<Byte>, out: array<Byte>, len: nat, decrypt: bool, tag: array<Byte>, width: nat)
    requires (width == 4 || width == 8) && width < rounds && |rk| == 16 * (rounds + 1)
    requires |h| == 16 && StoredPowers(Load(h), hpow) && |nonce| == 12
    requires len <= inp.Length && len <= out.Length
    requires tag.Length == 16 && tag != inp && tag != out
    modifies out, tag
    ensures out[..len] == Ctr(c, RoundKeys(rk, rounds), nonce, 2, old(inp[..len]))
    ensures out[len..] == old(out[len..])
    ensures tag[..] == Tag(c, RoundKeys(rk, rounds), Load(h), nonce, aad,
                           Hashed(c, RoundKeys(rk, rounds), nonce, old(inp[..len]), decrypt),
                           CodeLengths(|aad|, len, width))
    ensures |aad| < TWO_61 && len < TWO_36 ==>
      tag[..] == Tag(c, RoundKeys(rk, rounds), Load(h), nonce, aad,
                     Hashed(c, RoundKeys(rk, rounds), nonce, old(inp[..len]), decrypt), NistLengths(|aad|, len))
  {
    hide KeyByte, InFlight, Base, Progress, CounterAt, HashedTo, Hash, ArePowers, RoundKeys, Load, Encrypt, CounterBlock,
         StoredPowers, Padded, Ctr, CodeLengths, NistLengths;
    var keys := RoundKeys(rk, rounds);
    ghost var H: Element := Load(h);
    ghost var inp0, out0 := inp[..], out[..];
    ghost var cipher := Hashed(c, keys, nonce, inp0[..len], decrypt);
    var hp := LoadPowers(h, hpow);
    var ej0 := Encrypt(c, keys, CounterBlock(nonce, 1));
    var base := Base(nonce, keys[0]);
    var y0: Element := 0;
    if |aad| > 0 { y0 := GfAbsorb(H, y0, hp, aad, None); }
    AadHashed(H, aad);
    assert y0 == Hash(H, 0, Blocks(Padded(aad)));
    var y, at := Groups(c, keys, base, nonce, H, y0, hp, inp, out, len, decrypt, width);
    var lens := CodeLengths(|aad|, len, width);
    var final := y;
    if decrypt {
      ProgressBytes(c, keys, nonce, inp0, out0, inp[..], out[..], at, len, at, len);
      final := GfAbsorb(H, y, hp, inp[at..len], Some(lens));
    }
    GroupsAligned(len, width);
    if len - at > 0 {
      var b := GroupRounds(c, keys, base, CounterAt(2, at), (len - at + 15) / 16, nonce);
      CtrStep(c, keys, nonce, 2, CounterAt(2, at), inp0, out0, b, inp, out, at, len, len - at);
    }
    ProgressDone(c, keys, nonce, 2, inp0, out0, inp[..], out[..], len);
    if !decrypt {
      ProgressBytes(c, keys, nonce, inp0, out0, inp[..], out[..], len, len, at, len);
      final := GfAbsorb(H, y, hp, out[at..len], Some(lens));
    }
    HashedTail(c, keys, nonce, inp0[..len], decrypt, at);
    assert cipher[at..] == if decrypt then inp0[..len][at..len] else Ctr(c, keys, nonce, 2, inp0[..len])[at..len];
    assert ExtraBlock(Some(lens)) == [Load(lens)];
    HashedAll(H, aad, y0, y, cipher, at, lens, final);
    StoreBytes(tag, 0, XorBytes(ToBigEndian(16, final), ej0));
    assert tag[..] == tag[0..16];
    if |aad| < TWO_61 && len < TWO_36 { LengthsExact(|aad|, len, width); }
  }

  lemma AadHashed(h: Element, aad: seq<Byte>)
    ensures Blocks(Padded(aad)) + ExtraBlock(None) == Blocks(Padded(aad))
    ensures aad == [] ==> Hash(h, 0, Blocks(Padded(aad))) == 0
  {
  }

  lemma GroupsAligned(len: nat, width: nat)
    requires width == 4 || width == 8
    ensures WholeGroups(len, width) <= len < WholeGroups(len, width) + 128 && WholeGroups(len, width) % 16 == 0
  {
    var groups := if width == 4 then len / 64 else len / 128;
    SixteenTimes(if width == 4 then 4 * groups else 8 * groups);
  }

  lemma SixteenTimes(n: nat)
    ensures (16 * n) % 16 == 0
  {
  }

  lemma HashedTail(c: Cipher, keys: seq<Block>, nonce: seq<Byte>, inp: seq<Byte>, decrypt: bool, at: nat)
    requires |keys| >= 2 && |nonce| == 12 && at <= |inp|
    ensures Hashed(c, keys, nonce, inp, decrypt)[at..] ==
            if decrypt then inp[at..] else Ctr(c, keys, nonce, 2, inp)[at..|inp|]
  {
    hide KeyByte;
  }

  method LoadPowers(h: seq<Byte>, hpow: seq<Byte>) returns (hp: seq<Element>)
    requires |h| == 16 && StoredPowers(Load(h), hpow)
    ensures |hp| == 8 && ArePowers(Load(h), hp)
  {
    hide Times, LittleEndian, Load;
    hp := [Load(h)];
    for i := 1 to 8
      invariant |hp| == i && ArePowers(Load(h), hp)
    {
      Pow2Values();
      var v: Element := LittleEndian(hpow[16 * (i - 1)..16 * i]);
      hp := hp + [v];
    }
  }

  // ----- the lengths the code can represent -----

  // Every length has a right lengths block as long as its whole groups stay below 2^36 bytes - the
  // standard stops 32 bytes earlier - and only then.
  lemma LengthsExact(aad: nat, len: nat, width: nat)
    requires width == 4 || width == 8
    requires aad < TWO_61 && len < TWO_61
    ensures CodeLengths(aad, len, width) == NistLengths(aad, len) <==> WholeGroups(len, width) < TWO_36
  {
    hide ToBigEndian, BigEndian, CounterAt, WholeGroups;
    var done := WholeGroups(len, width);
    GroupsAligned(len, width);
    CodeBitsValue(len, done);
    SameEightBytes(8 * len, CodeBits(len, done));
    SameTail(ToBigEndian(8, 8 * aad), ToBigEndian(8, 8 * len), ToBigEndian(8, CodeBits(len, done)));
  }

  lemma SameTail(a: seq<Byte>, b: seq<Byte>, c: seq<Byte>)
    ensures a + b == a + c <==> b == c
  {
    assert (a + b)[|a|..] == b && (a + c)[|a|..] == c;
  }

  // 2^36 bytes are the first that go wrong.
  lemma LengthsWrongAt36(aad: nat, width: nat)
    requires (width == 4 || width == 8) && aad < TWO_61
    ensures CodeLengths(aad, TWO_36, width) != NistLengths(aad, TWO_36)
    ensures forall len: nat :: len < TWO_36 ==> CodeLengths(aad, len, width) == NistLengths(aad, len)
  {
    hide CodeLengths, NistLengths, WholeGroups;
    WholeAt36(width);
    LengthsExact(aad, TWO_36, width);
    forall len: nat | len < TWO_36
      ensures CodeLengths(aad, len, width) == NistLengths(aad, len)
    {
      GroupsAligned(len, width);
      LengthsExact(aad, len, width);
    }
  }

  lemma WholeAt36(width: nat)
    requires width == 4 || width == 8
    ensures WholeGroups(TWO_36, width) == TWO_36
  {
  }

  function CodeBits(len: nat, done: nat): nat
    requires done <= len
  {
    ((CounterAt(2, done) + TWO_32 - 2) % TWO_32 * 16 + (len - done)) * 8 % TWO_64
  }

  lemma CodeBitsValue(len: nat, done: nat)
    requires done <= len < done + 128 && done % 16 == 0 && len < TWO_61
    ensures CodeBits(len, done) < TWO_64
    ensures CodeBits(len, done) == 8 * len <==> done < TWO_36
  {
    var n := done / 16;
    assert (CounterAt(2, done) + TWO_32 - 2) % TWO_32 == n % TWO_32;
    assert CodeBits(len, done) == (n % TWO_32 * 16 + (len - done)) * 8;
  }

  lemma SameEightBytes(a: nat, b: nat)
    requires a < TWO_64 && b < TWO_64
    ensures ToBigEndian(8, a) == ToBigEndian(8, b) <==> a == b
  {
    Pow2Values();
    ToBigEndianRoundTrip(8, a);
    ToBigEndianRoundTrip(8, b);
  }

  // ----- opening what was sealed -----

  lemma OpenUndoesSeal(c: Cipher, keys: seq<Block>, nonce: seq<Byte>, plain: seq<Byte>)
    requires |keys| >= 2 && |nonce| == 12
    ensures var cipher := Ctr(c, keys, nonce, 2, plain);
            Ctr(c, keys, nonce, 2, cipher) == plain &&
            Hashed(c, keys, nonce, cipher, true) == Hashed(c, keys, nonce, plain, false)
  {
    CtrInverts(c, keys, nonce, 2, plain);
  }

  // Both calls in place: the plaintext is back and the second tag is the first.
  method SealThenOpen(c: Cipher, rk: seq<Byte>, rounds: nat, h: seq<Byte>, hpow: seq<Byte>, nonce: seq<Byte>,
                      aad: seq<Byte>, buf: array<Byte>, len: nat, sealed: array<Byte>, recomputed: array<Byte>, width: nat)
    requires (width == 4 || width == 8) && width < rounds && |rk| == 16 * (rounds + 1)
    requires |h| == 16 && StoredPowers(Load(h), hpow) && |nonce| == 12 && len <= buf.Length
    requires sealed.Length == 16 && recomputed.Length == 16 && sealed != buf && recomputed != buf && sealed != recomputed
    modifies buf, sealed, recomputed
    ensures buf[..] == old(buf[..])
    ensures sealed[..] == recomputed[..]
  {
    hide Ctr, Tag, RoundKeys, Load, StoredPowers, CodeLengths, NistLengths, Hashed;
    ghost var keys := RoundKeys(rk, rounds);
    OnePass(c, rk, rounds, h, hpow, nonce, aad, buf, buf, len, false, sealed, width);
    OnePass(c, rk, rounds, h, hpow, nonce, aad, buf, buf, len, true, recomputed, width);
    OpenUndoesSeal(c, keys, nonce, old(buf[..len]));
    assert buf[..] == buf[..len] + buf[len..];
    assert old(buf[..]) == old(buf[..len]) + old(buf[len..]);
  }
}
