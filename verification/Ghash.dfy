// GHASH: the one-block iteration of the standard, and the aggregated forms that
// fold up to eight blocks into one reduction with the powers of the hash key.
module Ghash {
  import opened Powers
  import opened Gf2
  import opened GcmField
  import opened Bytes
  import opened GcmX86

  // A field element, read from sixteen bytes.
  type Element = v: nat | v < TWO_128

  function Times(a: Element, b: Element): Element {
    Pow2Values();
    NistMulBound(a, b);
    NistMul(a, b)
  }

  function Plus(a: Element, b: Element): Element {
    Pow2Values();
    XorBound(a, b, 128);
    Xor(a, b)
  }

  lemma NistMulBound(a: nat, b: nat)
    requires b < Pow2(128)
    ensures NistMul(a, b) < Pow2(128)
  {
    NistStepsBound(128, a, 0, b);
  }

  // y = (y ^ x) * h for each block x: section 6.4 of the standard.
  function Hash(h: Element, y: Element, blocks: seq<Element>): Element {
    if blocks == [] then y
    else Times(Plus(Hash(h, y, blocks[..|blocks| - 1]), blocks[|blocks| - 1]), h)
  }

  lemma {:induction false} HashAppend(h: Element, y: Element, a: seq<Element>, b: seq<Element>)
    ensures Hash(h, y, a + b) == Hash(h, Hash(h, y, a), b)
  {
    hide Times, Plus;
    if b == [] {
      assert a + b == a;
    } else {
      HashAppend(h, y, a, b[..|b| - 1]);
      assert (a + b)[..|a + b| - 1] == a + b[..|b| - 1];
    }
  }

  // ----- the field laws on elements -----

  lemma TimesAssoc(a: Element, b: Element, c: Element)
    ensures Times(Times(a, b), c) == Times(a, Times(b, c))
  {
    hide NistMul;
    Pow2Values();
    NistMulAssoc(a, b, c);
  }

  lemma TimesDistributes(a: Element, b: Element, c: Element)
    ensures Times(Plus(a, b), c) == Plus(Times(a, c), Times(b, c))
  {
    hide NistMul, Xor;
    Pow2Values();
    NistMulDistributes(a, b, c);
  }

  // h^(n+1)
  function Power(h: Element, n: nat): Element {
    if n == 0 then h else Times(Power(h, n - 1), h)
  }

  lemma {:induction false} PowerAdd(h: Element, m: nat, n: nat)
    ensures Times(Power(h, m), Power(h, n)) == Power(h, m + n + 1)
  {
    hide Times;
    if n > 0 {
      PowerAdd(h, m, n - 1);
      TimesAssoc(Power(h, m), Power(h, n - 1), h);
    }
  }

  // ----- the closed form: x_1 h^m + x_2 h^(m-1) + ... + x_m h -----

  function Polynomial(h: Element, xs: seq<Element>): Element {
    if xs == [] then 0 else Plus(Times(xs[0], Power(h, |xs| - 1)), Polynomial(h, xs[1..]))
  }

  lemma {:induction false} HashIsPolynomial(h: Element, y: Element, xs: seq<Element>)
    ensures Hash(h, 0, xs) == Polynomial(h, xs)
    ensures Hash(h, y, xs) == if xs == [] then y else Plus(Times(y, Power(h, |xs| - 1)), Polynomial(h, xs))
    decreases |xs|
  {
    hide Times, Plus;
    if xs != [] {
      var x, rest, p := xs[0], xs[1..], Power(h, |xs| - 1);
      HashFront(h, 0, xs);
      HashFront(h, y, xs);
      PlusZero(x);
      var s := Plus(y, x);
      TimesDistributes(y, x, p);
      PlusAssoc(Times(y, p), Times(x, p), Polynomial(h, rest));
      HashIsPolynomial(h, Times(x, h), rest);
      HashIsPolynomial(h, Times(s, h), rest);
      if rest == [] {
        NothingAdded(Times(x, p));
        NothingAdded(Times(s, p));
      } else {
        PowerShift(x, h, |rest| - 1);
        PowerShift(s, h, |rest| - 1);
      }
    }
  }

  lemma NothingAdded(a: Element)
    ensures Plus(a, 0) == a
  {
    PlusComm(a, 0);
    PlusZero(a);
  }

  lemma HashFront(h: Element, y: Element, xs: seq<Element>)
    requires xs != []
    ensures Hash(h, y, xs) == Hash(h, Times(Plus(y, xs[0]), h), xs[1..])
  {
    hide Times, Plus;
    HashAppend(h, y, [xs[0]], xs[1..]);
    assert [xs[0]] + xs[1..] == xs;
    assert [xs[0]][..0] == [];
  }

  lemma PlusAssoc(a: Element, b: Element, c: Element)
    ensures Plus(Plus(a, b), c) == Plus(a, Plus(b, c))
  {
    hide Xor;
    XorAssoc(a, b, c);
  }

  // (x h) h^n = x h^(n+1)
  lemma PowerShift(x: Element, h: Element, n: nat)
    ensures Times(Times(x, h), Power(h, n)) == Times(x, Power(h, n + 1))
  {
    hide Times;
    TimesAssoc(x, h, Power(h, n));
    PowerAdd(h, 0, n);
  }

  ghost predicate ArePowers(h: Element, hp: seq<Element>) {
    forall i :: 0 <= i < |hp| ==> hp[i] == Power(h, i)
  }

  // ----- loading -----

  function Load(b: seq<Byte>): Element
    requires |b| == 16
  {
    Pow2Values();
    BigEndian(b)
  }

  function Blocks(data: seq<Byte>): (bs: seq<Element>)
    requires |data| % 16 == 0
    ensures |bs| == |data| / 16
  {
    seq(|data| / 16, i requires 0 <= i < |data| / 16 => Load(data[16 * i..16 * i + 16]))
  }

  // ----- one reduction for a group -----

  // The carry-less sums after i of the group's blocks, and what they will reduce to.
  ghost predicate Partial(h: Element, y: Element, xs: seq<Element>, i: nat, lo: nat, hi: nat)
    requires i <= |xs|
  {
    lo < TWO_128 && hi < TWO_128 / 2 && IsResidue(PartialValue(h, y, xs, i), lo + TWO_128 * hi)
  }

  ghost function PartialValue(h: Element, y: Element, xs: seq<Element>, i: nat): Element
    requires i <= |xs|
  {
    if i == 0 then 0
    else if i == |xs| then Hash(h, y, xs)
    else Times(Hash(h, y, xs[..i]), Power(h, |xs| - 1 - i))
  }

  lemma PartialStep(h: Element, y: Element, xs: seq<Element>, i: nat)
    requires i < |xs|
    ensures var x := if i == 0 then Plus(xs[0], y) else xs[i];
            PartialValue(h, y, xs, i + 1) == Plus(PartialValue(h, y, xs, i), Times(x, Power(h, |xs| - 1 - i)))
  {
    hide Times, Plus, Hash, Power;
    var p := Power(h, |xs| - 1 - i);
    PartialNext(h, y, xs, i);
    if i == 0 {
      HashOfNone(h, y, xs);
      PlusComm(y, xs[0]);
      PlusZero(Times(Plus(xs[0], y), p));
    } else {
      TimesDistributes(Hash(h, y, xs[..i]), xs[i], p);
    }
  }

  lemma HashOfNone(h: Element, y: Element, xs: seq<Element>)
    ensures Hash(h, y, xs[..0]) == y
  {
  }

  lemma PlusComm(a: Element, b: Element)
    ensures Plus(a, b) == Plus(b, a)
  {
    XorComm(a, b);
  }

  lemma PlusZero(a: Element)
    ensures Plus(0, a) == a
  {
    XorZero(a);
  }

  lemma PartialNext(h: Element, y: Element, xs: seq<Element>, i: nat)
    requires i < |xs|
    ensures PartialValue(h, y, xs, i + 1) == Times(Plus(Hash(h, y, xs[..i]), xs[i]), Power(h, |xs| - 1 - i))
  {
    hide Times, Plus;
    var n := |xs|;
    var sum := Plus(Hash(h, y, xs[..i]), xs[i]);
    assert xs[..i + 1][..i] == xs[..i];
    assert Hash(h, y, xs[..i + 1]) == Times(sum, h);
    if i + 1 == n {
      assert xs[..n] == xs;
    } else {
      TimesAssoc(sum, h, Power(h, n - 2 - i));
      PowerAdd(h, 0, n - 2 - i);
    }
  }

  // One more product joins the sums.
  lemma PartialAdd(h: Element, y: Element, xs: seq<Element>, i: nat, lo: nat, hi: nat, x: Element, p: Element)
    requires i < |xs| && Partial(h, y, xs, i, lo, hi)
    requires x == if i == 0 then Plus(xs[0], y) else xs[i]
    requires p == Power(h, |xs| - 1 - i)
    ensures var (l, g) := GfProduct(x, p);
            Partial(h, y, xs, i + 1, Xor(lo, l), Xor(hi, g))
  {
    hide Times, Plus, GfProduct, Xor, Mul, IsResidue, PartialValue;
    PartialStep(h, y, xs, i);
    Pow2Values();
    GfProductIsMul(x, p);
    var (l, g) := GfProduct(x, p);
    TimesIsResidue(x, p);
    ResidueLinear(PartialValue(h, y, xs, i), lo + TWO_128 * hi, Times(x, p), l + TWO_128 * g);
    PlusIsXor(PartialValue(h, y, xs, i), Times(x, p));
    XorConcat128(lo, hi, l, g);
    XorBound(hi, g, 127);
  }

  lemma TimesIsResidue(x: Element, p: Element)
    ensures IsResidue(Times(x, p), Mul(x, p))
  {
    hide NistMul;
    Pow2Values();
    NistMulIsResidue(x, p);
  }

  lemma PlusIsXor(a: Element, b: Element)
    ensures Plus(a, b) == Xor(a, b)
  {
  }

  lemma PartialEmpty(h: Element, y: Element, xs: seq<Element>)
    ensures Partial(h, y, xs, 0, 0, 0)
  {
    hide Xor, Mul;
    Pow2Values();
    ShlIsTimesPow2(128, 0);
    CongruentRefl(MODULUS, 0);
  }

  lemma PartialFull(h: Element, y: Element, xs: seq<Element>, lo: nat, hi: nat)
    requires xs != [] && Partial(h, y, xs, |xs|, lo, hi)
    ensures GfReduce(lo, hi) == Hash(h, y, xs)
  {
    hide GfReduce, IsResidue, Hash;
    GfReduceIsResidue(lo, hi);
    ResidueUnique(GfReduce(lo, hi), Hash(h, y, xs), lo + TWO_128 * hi);
  }

  // gf_fold: count blocks of data into y with one reduction.
  method GfFold(ghost h: Element, y: Element, hp: seq<Element>, data: seq<Byte>, count: nat) returns (r: Element)
    requires 1 <= count <= |hp| && ArePowers(h, hp)
    requires 16 * count <= |data|
    ensures r == Hash(h, y, Blocks(data[..16 * count]))
  {
    hide Times, Plus, GfProduct, GfReduce, Partial, Hash, Power, Load;
    ghost var xs := Blocks(data[..16 * count]);
    PartialEmpty(h, y, xs);
    var lo, hi := 0, 0;
    for i := 0 to count
      invariant Partial(h, y, xs, i, lo, hi)
    {
      assert data[..16 * count][16 * i..16 * i + 16] == data[16 * i..16 * i + 16];
      var x := Load(data[16 * i..16 * i + 16]);
      if i == 0 { x := Plus(x, y); }
      var (l, g) := GfProduct(x, hp[count - 1 - i]);
      PartialAdd(h, y, xs, i, lo, hi, x, hp[count - 1 - i]);
      lo, hi := Xor(lo, l), Xor(hi, g);
    }
    PartialFull(h, y, xs, lo, hi);
    r := GfReduce(lo, hi);
  }

  // ----- lists of blocks -----

  function Loads(blk: seq<seq<Byte>>): (xs: seq<Element>)
    requires forall i :: 0 <= i < |blk| ==> |blk[i]| == 16
    ensures |xs| == |blk|
  {
    seq(|blk|, i requires 0 <= i < |blk| => Load(blk[i]))
  }

  // gf_fold_list: the list of blocks, at most eight to a reduction.
  method GfFoldList(ghost h: Element, y: Element, hp: seq<Element>, blk: seq<seq<Byte>>) returns (r: Element)
    requires |hp| == 8 && ArePowers(h, hp)
    requires forall i :: 0 <= i < |blk| ==> |blk[i]| == 16
    ensures r == Hash(h, y, Loads(blk))
  {
    hide Times, Plus, GfProduct, GfReduce, Partial, Hash, Power, Load;
    r := y;
    var at := 0;
    HashOfNone(h, y, Loads(blk));
    while at < |blk|
      invariant 0 <= at <= |blk|
      invariant r == Hash(h, y, Loads(blk)[..at])
    {
      var count := if |blk| - at < 8 then |blk| - at else 8;
      ghost var xs := Loads(blk)[at..at + count];
      PartialEmpty(h, r, xs);
      var lo, hi := 0, 0;
      for i := 0 to count
        invariant Partial(h, r, xs, i, lo, hi)
      {
        var x := Load(blk[at + i]);
        if i == 0 { x := Plus(x, r); }
        var (l, g) := GfProduct(x, hp[count - 1 - i]);
        PartialAdd(h, r, xs, i, lo, hi, x, hp[count - 1 - i]);
        lo, hi := Xor(lo, l), Xor(hi, g);
      }
      PartialFull(h, r, xs, lo, hi);
      HashAppend(h, y, Loads(blk)[..at], xs);
      assert Loads(blk)[..at] + xs == Loads(blk)[..at + count];
      r := GfReduce(lo, hi);
      at := at + count;
    }
    assert Loads(blk)[..at] == Loads(blk);
  }

  // ----- byte strings of any length -----

  // Zeros up to the next multiple of sixteen bytes.
  function Padded(data: seq<Byte>): (p: seq<Byte>)
    ensures |p| % 16 == 0 && |p| < |data| + 16 && data <= p
  {
    data + Zeros((16 - |data| % 16) % 16)
  }

  lemma PaddedIs(data: seq<Byte>)
    ensures data <= Padded(data) && |Padded(data)| % 16 == 0 && |Padded(data)| < |data| + 16
    ensures forall i :: |data| <= i < |Padded(data)| ==> Padded(data)[i] == 0
  {
  }

  lemma BlocksAppend(a: seq<Byte>, b: seq<Byte>)
    requires |a| % 16 == 0 && |b| % 16 == 0
    ensures |a + b| % 16 == 0 && Blocks(a + b) == Blocks(a) + Blocks(b)
  {
    hide Load;
    ChunksAppend(a, b);
    BothCounts(a, b, |a| / 16, |b| / 16);
    var all, parts := Blocks(a + b), Blocks(a) + Blocks(b);
    forall i | 0 <= i < |all|
      ensures all[i] == parts[i]
    {
      assert all[i] == Load(Chunks(a + b)[i]);
    }
  }

  function ExtraBlock(extra: Option<seq<Byte>>): seq<Element>
    requires extra.Some? ==> |extra.value| == 16
  {
    if extra.Some? then [Load(extra.value)] else []
  }

  method FoldAt(ghost h: Element, ghost y0: Element, y: Element, hp: seq<Element>, data: seq<Byte>, at: nat, count: nat)
    returns (r: Element)
    requires 1 <= count <= |hp| && ArePowers(h, hp) && 16 * (at + count) <= |data|
    requires y == Hash(h, y0, Blocks(data[..16 * at]))
    ensures r == Hash(h, y0, Blocks(data[..16 * (at + count)]))
  {
    hide Hash, Power, Load;
    r := GfFold(h, y, hp, data[16 * at..], count);
    ghost var a, b := data[..16 * at], data[16 * at..][..16 * count];
    HashAppend(h, y0, Blocks(a), Blocks(b));
    BlocksAppend(a, b);
    assert a + b == data[..16 * (at + count)];
  }

  // gf_absorb: a byte string, the last block zero padded, and one more block after it.
  method GfAbsorb(ghost h: Element, y: Element, hp: seq<Element>, data: seq<Byte>, extra: Option<seq<Byte>>)
    returns (r: Element)
    requires |hp| == 8 && ArePowers(h, hp)
    requires extra.Some? ==> |extra.value| == 16
    ensures r == Hash(h, y, Blocks(Padded(data)) + ExtraBlock(extra))
  {
    hide Times, Plus, Hash, Power, Load, Padded;
    r := y;
    var at, len := 0, |data|;
    HashOfNone(h, y, []);
    assert Blocks(data[..0]) == [];
    while len >= 128
      invariant 0 <= at && 0 <= len && 16 * at + len == |data|
      invariant r == Hash(h, y, Blocks(data[..16 * at]))
      decreases len
    {
      r := FoldAt(h, y, r, hp, data, at, 8);
      at, len := at + 8, len - 128;
    }
    var blk := ListTail(data[16 * at..]);
    AbsorbTail(h, y, data, at, blk, extra);
    if extra.Some? {
      blk := blk + [extra.value];
    }
    assert |blk| <= 9;
    r := GfFoldList(h, r, hp, blk);
  }

  // The whole groups and then the loose blocks and the extra one.
  lemma AbsorbTail(h: Element, y: Element, data: seq<Byte>, at: nat, blk: seq<seq<Byte>>, extra: Option<seq<Byte>>)
    requires 16 * at <= |data| && (extra.Some? ==> |extra.value| == 16)
    requires forall i :: 0 <= i < |blk| ==> |blk[i]| == 16
    requires Loads(blk) == Blocks(Padded(data[16 * at..]))
    ensures Hash(h, Hash(h, y, Blocks(data[..16 * at])), Loads(if extra.Some? then blk + [extra.value] else blk)) ==
            Hash(h, y, Blocks(Padded(data)) + ExtraBlock(extra))
  {
    hide Times, Plus, Hash, Load, Padded, Blocks;
    var front, tail := Blocks(data[..16 * at]), Loads(blk) + ExtraBlock(extra);
    PaddedAppend(data, 16 * at);
    HashAppend(h, y, front, tail);
    assert Blocks(Padded(data)) + ExtraBlock(extra) == front + tail;
    if extra.Some? {
      assert Loads(blk + [extra.value]) == tail;
    } else {
      assert Loads(blk) == tail;
    }
  }

  // The blocks of fewer than 128 bytes, the last one zero padded.
  method ListTail(tail: seq<Byte>) returns (blk: seq<seq<Byte>>)
    requires |tail| < 128
    ensures |blk| <= 8 && forall i :: 0 <= i < |blk| ==> |blk[i]| == 16
    ensures Loads(blk) == Blocks(Padded(tail))
  {
    hide Load;
    blk := [];
    var at, len := 0, |tail|;
    while len >= 16
      invariant 0 <= len && at + len == |tail| && at == 16 * |blk|
      invariant forall i :: 0 <= i < |blk| ==> blk[i] == tail[16 * i..16 * i + 16]
      decreases len
    {
      blk := blk + [tail[at..at + 16]];
      at, len := at + 16, len - 16;
    }
    if len > 0 {
      blk := blk + [tail[at..] + Zeros(16 - len)];
    }
    PaddedLoads(tail, blk);
  }

  lemma PaddedLoads(tail: seq<Byte>, blk: seq<seq<Byte>>)
    requires |blk| == (|tail| + 15) / 16
    requires forall i :: 0 <= i < |tail| / 16 ==> blk[i] == tail[16 * i..16 * i + 16]
    requires |tail| % 16 != 0 ==> blk[|tail| / 16] == tail[|tail| / 16 * 16..] + Zeros(16 - |tail| % 16)
    ensures forall i :: 0 <= i < |blk| ==> |blk[i]| == 16
    ensures Loads(blk) == Blocks(Padded(tail))
  {
    hide Load;
    var p := Padded(tail);
    forall i | 0 <= i < |blk|
      ensures blk[i] == p[16 * i..16 * i + 16]
    {
    }
  }

  lemma PaddedAppend(data: seq<Byte>, at: nat)
    requires at <= |data| && at % 16 == 0
    ensures Blocks(Padded(data)) == Blocks(data[..at]) + Blocks(Padded(data[at..]))
  {
    hide Blocks;
    PaddedSplit(data, at);
    BlocksAppend(data[..at], Padded(data[at..]));
  }

  lemma PaddedSplit(data: seq<Byte>, at: nat)
    requires at <= |data| && at % 16 == 0
    ensures Padded(data) == data[..at] + Padded(data[at..])
  {
    hide Zeros;
    var front, rest := data[..at], data[at..];
    Quotient(|data|, 16, at / 16 + |rest| / 16, |rest| % 16);
    var z := Zeros((16 - |data| % 16) % 16);
    assert data == front + rest;
    assert front + rest + z == front + (rest + z);
  }

  // ----- the powers of the hash key -----

  // h^1 .. h^4, or h^1 .. h^8, by products that wait for few others.
  method MakePowers(h: Element, width: nat) returns (hp: seq<Element>)
    requires width == 4 || width == 8
    ensures |hp| == width && ArePowers(h, hp)
  {
    hide Times, Power, GfMul;
    PowerOfOne(h);
    var h0 := h;
    var h1 := MulPowers(h, h0, 0, h0, 0);
    var h2 := MulPowers(h, h1, 1, h0, 0);
    var h3 := MulPowers(h, h1, 1, h1, 1);
    hp := [h0, h1, h2, h3];
    if width == 8 {
      var h4 := MulPowers(h, h3, 3, h0, 0);
      var h5 := MulPowers(h, h2, 2, h2, 2);
      var h6 := MulPowers(h, h3, 3, h2, 2);
      var h7 := MulPowers(h, h3, 3, h3, 3);
      hp := [h0, h1, h2, h3, h4, h5, h6, h7];
    }
  }

  lemma PowerOfOne(h: Element)
    ensures Power(h, 0) == h
  {
  }

  // gf_mul on two powers already made.
  method MulPowers(ghost h: Element, a: Element, ghost m: nat, b: Element, ghost n: nat) returns (r: Element)
    requires a == Power(h, m) && b == Power(h, n)
    ensures r == Power(h, m + n + 1)
  {
    hide Times, GfMul, Power;
    PowerAdd(h, m, n);
    GfMulIsTimes(a, b);
    r := GfMul(a, b);
  }

  lemma GfMulIsTimes(a: Element, b: Element)
    ensures GfMul(a, b) == Times(a, b)
  {
    hide GfMul, NistMul;
    GfMulIsNistMul(a, b);
  }

  // proven_sys_aes_gcm_powers: H^2 .. H^8 as raw registers.
  method GcmPowers(h: seq<Byte>, hpow: array<Byte>)
    requires |h| == 16 && hpow.Length == 112
    modifies hpow
    ensures StoredPowers(Load(h), hpow[..])
  {
    hide Power, Load, ToLittleEndian, LittleEndian;
    var hp := MakePowers(Load(h), 8);
    for i := 1 to 8
      invariant forall j :: 1 <= j < i ==> LittleEndian(hpow[16 * (j - 1)..16 * j]) == hp[j]
    {
      Pow2Values();
      LittleEndianRoundTrip(16, hp[i]);
      ghost var before := hpow[..];
      StoreBytes(hpow, 16 * (i - 1), ToLittleEndian(16, hp[i]));
      forall j | 1 <= j < i
        ensures hpow[16 * (j - 1)..16 * j] == before[16 * (j - 1)..16 * j]
      {
        assert 16 * j <= 16 * (i - 1);
      }
    }
  }

  ghost predicate StoredPowers(h: Element, hpow: seq<Byte>) {
    |hpow| == 112 &&
    forall i :: 1 <= i < 8 ==> LittleEndian(hpow[16 * (i - 1)..16 * i]) == Power(h, i)
  }

  // ----- GHASH over whole blocks -----

  // proven_sys_aes_ghash on x86.
  method HashBlocks(y: array<Byte>, h: seq<Byte>, data: seq<Byte>, blocks: nat, width: nat)
    requires y.Length == 16 && |h| == 16 && 16 * blocks <= |data|
    requires width == 4 || width == 8
    modifies y
    ensures y[..] == ToBigEndian(16, Hash(Load(h), old(Load(y[..])), Blocks(data[..16 * blocks])))
  {
    hide Times, Plus, Hash, Power, Load, GfMul, ToBigEndian;
    var hv := Load(h);
    var yv := Load(y[..]);
    ghost var y0 := yv;
    var at, rest := 0, blocks;
    HashOfNone(hv, y0, []);
    assert Blocks(data[..0]) == [];
    if rest >= width {
      var hp := MakePowers(hv, width);
      while rest >= width
        invariant at + rest == blocks && 0 <= at && 0 <= rest
        invariant yv == Hash(hv, y0, Blocks(data[..16 * at]))
        decreases rest
      {
        yv := FoldAt(hv, y0, yv, hp, data, at, width);
        at, rest := at + width, rest - width;
      }
      if rest > 0 {
        yv := FoldAt(hv, y0, yv, hp, data, at, rest);
        at, rest := at + rest, 0;
      }
    }
    while rest > 0
      invariant at + rest == blocks && 0 <= at && 0 <= rest
      invariant yv == Hash(hv, y0, Blocks(data[..16 * at]))
      decreases rest
    {
      var x := Load(data[16 * at..16 * at + 16]);
      HashOneMore(hv, y0, data, at);
      GfMulIsTimes(Plus(yv, x), hv);
      yv := GfMul(Plus(yv, x), hv);
      at, rest := at + 1, rest - 1;
    }
    StoreBytes(y, 0, ToBigEndian(16, yv));
    assert y[..] == y[0..16];
  }

  lemma HashOneMore(h: Element, y: Element, data: seq<Byte>, at: nat)
    requires 16 * at + 16 <= |data|
    ensures Hash(h, y, Blocks(data[..16 * (at + 1)]))
         == Times(Plus(Hash(h, y, Blocks(data[..16 * at])), Load(data[16 * at..16 * at + 16])), h)
  {
    hide Load, Times, Plus;
    var xs := Blocks(data[..16 * (at + 1)]);
    assert data[..16 * (at + 1)][16 * at..16 * at + 16] == data[16 * at..16 * at + 16];
    assert xs[..at] == Blocks(data[..16 * at]) by {
      forall i | 0 <= i < at
        ensures data[..16 * (at + 1)][16 * i..16 * i + 16] == data[..16 * at][16 * i..16 * i + 16]
      {
      }
    }
  }
}
