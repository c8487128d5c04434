// The x86 multiplier: PCLMULQDQ products, the one-bit shift of the reflected
// order and the reduction in 32-bit lanes. A register is the little-endian
// integer of its sixteen bytes; the operands are byte reversed, so that is the
// big-endian integer of the block.
module GcmX86 {
  import opened Powers
  import opened Gf2
  import opened GcmField

  const TWO_121: nat := 0x2000000_00000000_00000000_00000000
  const TWO_126: nat := 0x40000000_00000000_00000000_00000000
  const TWO_127: nat := 0x80000000_00000000_00000000_00000000

  // ----- 64-bit halves: _mm_clmulepi64_si128, _mm_slli_si128 and _mm_srli_si128 by eight bytes -----

  function Half(v: nat, upper: bool): nat {
    if upper then v / TWO_64 else v % TWO_64
  }

  function Clmul(a: nat, b: nat, upperA: bool, upperB: bool): nat {
    Mul(Half(a, upperA), Half(b, upperB))
  }

  function UpEightBytes(v: nat): nat { v % TWO_64 * TWO_64 }

  function DownEightBytes(v: nat): nat { v / TWO_64 }

  // The two halves of the 256-bit product.
  function GfProduct(a: nat, b: nat): (nat, nat) {
    var t3 := Clmul(a, b, false, false);
    var t4 := Clmul(a, b, false, true);
    var t5 := Clmul(a, b, true, false);
    var t6 := Clmul(a, b, true, true);
    var mid := Xor(t4, t5);
    (Xor(t3, UpEightBytes(mid)), Xor(t6, DownEightBytes(mid)))
  }

  // ----- 32-bit lanes -----

  datatype Lanes = Lanes(a: nat, b: nat, c: nat, d: nat)

  function ToLanes(v: nat): Lanes {
    var w := v / TWO_32;
    var x := w / TWO_32;
    Lanes(v % TWO_32, w % TWO_32, x % TWO_32, x / TWO_32 % TWO_32)
  }

  function FromLanes(x: Lanes): nat {
    x.a + TWO_32 * (x.b + TWO_32 * (x.c + TWO_32 * x.d))
  }

  ghost predicate IsRegister(x: Lanes) {
    x.a < TWO_32 && x.b < TWO_32 && x.c < TWO_32 && x.d < TWO_32
  }

  function XorLanes(x: Lanes, y: Lanes): Lanes {
    Lanes(Xor(x.a, y.a), Xor(x.b, y.b), Xor(x.c, y.c), Xor(x.d, y.d))
  }

  function OrLanes(x: Lanes, y: Lanes): Lanes {
    Lanes(Or(x.a, y.a), Or(x.b, y.b), Or(x.c, y.c), Or(x.d, y.d))
  }

  // _mm_slli_epi32 and _mm_srli_epi32; p is two to the shift count.
  function SlliEpi32(x: Lanes, p: nat): Lanes {
    Lanes(x.a * p % TWO_32, x.b * p % TWO_32, x.c * p % TWO_32, x.d * p % TWO_32)
  }

  function SrliEpi32(x: Lanes, p: nat): Lanes
    requires p > 0
  {
    Lanes(x.a / p, x.b / p, x.c / p, x.d / p)
  }

  // _mm_slli_si128 and _mm_srli_si128 by four and by twelve bytes.
  function Up4(x: Lanes): Lanes { Lanes(0, x.a, x.b, x.c) }
  function Up12(x: Lanes): Lanes { Lanes(0, 0, 0, x.a) }
  function Down4(x: Lanes): Lanes { Lanes(x.b, x.c, x.d, 0) }
  function Down12(x: Lanes): Lanes { Lanes(x.d, 0, 0, 0) }

  // The 256 bits one place to the left.
  function ShiftOne(lo: Lanes, hi: Lanes): (Lanes, Lanes) {
    var t7 := SrliEpi32(lo, 0x8000_0000);
    var t8 := SrliEpi32(hi, 0x8000_0000);
    var t3 := SlliEpi32(lo, 2);
    var t6 := SlliEpi32(hi, 2);
    var t9 := Down12(t7);
    (OrLanes(t3, Up4(t7)), OrLanes(OrLanes(t6, Up4(t8)), t9))
  }

  // The low 128 bits cleared by multiples of the modulus.
  function FoldLow(t3: Lanes, t6: Lanes): Lanes {
    var t7 := XorLanes(XorLanes(SlliEpi32(t3, 0x8000_0000), SlliEpi32(t3, 0x4000_0000)), SlliEpi32(t3, 0x200_0000));
    var t8 := Down4(t7);
    var q := XorLanes(t3, Up12(t7));
    var t2 := XorLanes(XorLanes(XorLanes(SrliEpi32(q, 2), SrliEpi32(q, 4)), SrliEpi32(q, 128)), t8);
    XorLanes(t6, XorLanes(q, t2))
  }

  function GfReduce(lo: nat, hi: nat): nat {
    var (t3, t6) := ShiftOne(ToLanes(lo), ToLanes(hi));
    FromLanes(FoldLow(t3, t6))
  }

  function GfMul(a: nat, b: nat): nat {
    var (lo, hi) := GfProduct(a, b);
    GfReduce(lo, hi)
  }

  // ----- the product -----

  lemma ShlValues(a: nat)
    ensures Shl(64, a) == TWO_64 * a && Shl(128, a) == TWO_128 * a
  {
    Pow2Values();
    ShlIsTimesPow2(64, a);
    ShlIsTimesPow2(128, a);
  }

  // a = a0 + x^64 a1 as polynomials.
  lemma MulSplitRight(a: nat, b: nat)
    ensures Mul(a, b) == Xor(Mul(a, b % TWO_64), TWO_64 * Mul(a, b / TWO_64))
  {
    hide Xor, Mul;
    Pow2Values();
    XorDisjoint(64, b % TWO_64, b / TWO_64);
    MulDistributesRight(a, b % TWO_64, TWO_64 * (b / TWO_64));
    ShlValues(b / TWO_64);
    MulShl(64, a, b / TWO_64);
    ShlValues(Mul(a, b / TWO_64));
  }

  lemma GfProductIsMul(a: nat, b: nat)
    requires a < TWO_128 && b < TWO_128
    ensures var (lo, hi) := GfProduct(a, b);
            lo < TWO_128 && hi < TWO_128 / 2 && lo + TWO_128 * hi == Mul(a, b)
  {
    hide Xor, Mul, Pow2, UpEightBytes, DownEightBytes;
    HalfOf128();
    var a0, a1, b0, b1 := a % TWO_64, a / TWO_64, b % TWO_64, b / TWO_64;
    var t3, t4, t5, t6 := Mul(a0, b0), Mul(a0, b1), Mul(a1, b0), Mul(a1, b1);
    var mid := Xor(t4, t5);
    MulSplitRight(a, b);
    MulComm(a, b0); MulComm(a, b1);
    MulSplitRight(b0, a); MulSplitRight(b1, a);
    MulComm(b0, a0); MulComm(b0, a1); MulComm(b1, a0); MulComm(b1, a1);
    assert Mul(a, b) == Xor(Xor(t3, TWO_64 * t5), TWO_64 * Xor(t4, TWO_64 * t6));
    MulBound(a0, b0, 64, 64);
    CollectMiddle(t3, t4, t5, t6);
    BoundHigh(t4, t5, t6, a0, a1, b0, b1);
  }

  lemma CollectMiddle(t3: nat, t4: nat, t5: nat, t6: nat)
    requires t3 < TWO_128
    ensures var mid := Xor(t4, t5);
            var lo := Xor(t3, UpEightBytes(mid));
            var hi := Xor(t6, DownEightBytes(mid));
            lo < TWO_128 && lo + TWO_128 * hi == Xor(Xor(t3, TWO_64 * t5), TWO_64 * Xor(t4, TWO_64 * t6))
  {
    hide Xor, Mul;
    CutMiddle(t3, Xor(t4, t5), t6);
    JoinMiddle(t3, t4, t5, t6);
  }

  lemma CutMiddle(t3: nat, mid: nat, t6: nat)
    requires t3 < TWO_128
    ensures Xor(t3, UpEightBytes(mid)) < TWO_128
    ensures Xor(Xor(t3, TWO_64 * mid), TWO_128 * t6)
         == Xor(t3, UpEightBytes(mid)) + TWO_128 * Xor(t6, DownEightBytes(mid))
  {
    hide Xor;
    var up, down := UpEightBytes(mid), DownEightBytes(mid);
    XorConcat128(t3, 0, up, down);
    assert TWO_64 * mid == up + TWO_128 * down;
    XorConcat128(Xor(t3, up), down, 0, t6);
    XorComm(down, t6);
    XorZero(down);
    XorZero(Xor(t3, up));
  }

  lemma XorConcat128(a: nat, b: nat, c: nat, d: nat)
    requires a < TWO_128 && c < TWO_128
    ensures Xor(a, c) < TWO_128
    ensures Xor(a + TWO_128 * b, c + TWO_128 * d) == Xor(a, c) + TWO_128 * Xor(b, d)
  {
    hide Xor, Mul;
    Pow2Values();
    XorBound(a, c, 128);
    XorConcat(128, a, b, c, d);
  }

  lemma JoinMiddle(t3: nat, t4: nat, t5: nat, t6: nat)
    ensures Xor(Xor(t3, TWO_64 * t5), TWO_64 * Xor(t4, TWO_64 * t6))
         == Xor(Xor(t3, TWO_64 * Xor(t4, t5)), TWO_128 * t6)
  {
    hide Xor, Mul;
    var x4, x5, x6 := TWO_64 * t4, TWO_64 * t5, TWO_128 * t6;
    Xor64(t4, TWO_64 * t6);
    Xor64(t4, t5);
    XorAssoc(t3, x5, Xor(x4, x6));
    XorAssoc(x5, x4, x6);
    XorComm(x5, x4);
    XorAssoc(t3, Xor(x4, x5), x6);
  }

  lemma Xor64(a: nat, b: nat)
    ensures TWO_64 * Xor(a, b) == Xor(TWO_64 * a, TWO_64 * b)
  {
    hide Xor, Mul;
    ShlValues(a); ShlValues(b); ShlValues(Xor(a, b));
    XorShl(64, a, b);
  }

  lemma HalfOf128()
    ensures Pow2(64) == TWO_64 && Pow2(127) == TWO_128 / 2
  {
    Pow2Values();
  }

  lemma DownIsSmaller(v: nat)
    ensures DownEightBytes(v) <= v
  {
  }

  lemma BoundHigh(t4: nat, t5: nat, t6: nat, a0: nat, a1: nat, b0: nat, b1: nat)
    requires a0 < TWO_64 && a1 < TWO_64 && b0 < TWO_64 && b1 < TWO_64
    requires t4 == Mul(a0, b1) && t5 == Mul(a1, b0) && t6 == Mul(a1, b1)
    ensures Xor(t6, DownEightBytes(Xor(t4, t5))) < TWO_128 / 2
  {
    hide Xor, Mul, Pow2, DownEightBytes;
    HalfOf128();
    DownIsSmaller(Xor(t4, t5));
    MulBound(a0, b1, 64, 64);
    MulBound(a1, b0, 64, 64);
    MulBound(a1, b1, 64, 64);
    XorBound(t4, t5, 127);
    XorBound(t6, DownEightBytes(Xor(t4, t5)), 127);
  }

  // ----- the reduction -----

  function Shifted(x: nat, below: nat): nat { x * 2 % TWO_32 + below / 0x8000_0000 }

  lemma ShiftOneLanes(l: Lanes, h: Lanes)
    requires IsRegister(l) && IsRegister(h)
    ensures ShiftOne(l, h) == (Lanes(Shifted(l.a, 0), Shifted(l.b, l.a), Shifted(l.c, l.b), Shifted(l.d, l.c)),
                               Lanes(Shifted(h.a, l.d), Shifted(h.b, h.a), Shifted(h.c, h.b), Shifted(h.d, h.c)))
  {
    ShiftLane(l.a, 0); ShiftLane(l.b, l.a); ShiftLane(l.c, l.b); ShiftLane(l.d, l.c);
    ShiftLane(h.a, l.d); ShiftLane(h.b, h.a); ShiftLane(h.c, h.b); ShiftLane(h.d, h.c);
  }

  lemma ShiftedSplit(x: nat, below: nat)
    requires x < TWO_32 && below < TWO_32
    ensures Shifted(x, below) < TWO_32
    ensures Shifted(x, below) == 2 * x - TWO_32 * (x / 0x8000_0000) + below / 0x8000_0000
  {
  }

  lemma ShiftOneDoubles(l: Lanes, h: Lanes)
    requires IsRegister(l) && IsRegister(h) && h.d < 0x8000_0000
    ensures var (t3, t6) := ShiftOne(l, h);
            IsRegister(t3) && IsRegister(t6) &&
            FromLanes(t3) + TWO_128 * FromLanes(t6) == 2 * (FromLanes(l) + TWO_128 * FromLanes(h))
  {
    hide Or, ShiftOne, Shifted, FromLanes;
    ShiftOneLanes(l, h);
    var (t3, t6) := ShiftOne(l, h);
    ShiftedRegister(l, t3, 0);
    ShiftedRegister(h, t6, l.d);
  }

  lemma ShiftedRegister(x: Lanes, y: Lanes, below: nat)
    requires IsRegister(x) && below < TWO_32
    requires y == Lanes(Shifted(x.a, below), Shifted(x.b, x.a), Shifted(x.c, x.b), Shifted(x.d, x.c))
    ensures IsRegister(y)
    ensures FromLanes(y) == 2 * FromLanes(x) + below / 0x8000_0000 - TWO_128 * (x.d / 0x8000_0000)
  {
    hide Shifted;
    ShiftedSplit(x.a, below); ShiftedSplit(x.b, x.a); ShiftedSplit(x.c, x.b); ShiftedSplit(x.d, x.c);
  }

  lemma LanesRoundTrip(v: nat)
    requires v < TWO_128
    ensures IsRegister(ToLanes(v)) && FromLanes(ToLanes(v)) == v
  {
  }

  // One lane of a shifted register with the top bit of the lane below moved in.
  lemma ShiftLane(x: nat, below: nat)
    requires x < TWO_32 && below < TWO_32
    ensures Or(x * 2 % TWO_32, below / 0x8000_0000) == Shifted(x, below)
    ensures Or(Or(x * 2 % TWO_32, 0), below / 0x8000_0000) == Shifted(x, below)
    ensures Or(Or(x * 2 % TWO_32, below / 0x8000_0000), 0) == Shifted(x, below)
  {
    OrLowBit(x * 2 % TWO_32, below / 0x8000_0000);
  }

  lemma OrLowBit(x: nat, bit: nat)
    requires x % 2 == 0 && bit < 2
    ensures Or(x, bit) == x + bit
  {
  }

  lemma XorOfLanes(x: Lanes, y: Lanes)
    requires IsRegister(x) && IsRegister(y)
    ensures IsRegister(XorLanes(x, y))
    ensures FromLanes(XorLanes(x, y)) == Xor(FromLanes(x), FromLanes(y))
  {
    hide Xor;
    XorLane(x.c, x.d, y.c, y.d);
    XorLane(x.b, x.c + TWO_32 * x.d, y.b, y.c + TWO_32 * y.d);
    XorLane(x.a, x.b + TWO_32 * (x.c + TWO_32 * x.d), y.a, y.b + TWO_32 * (y.c + TWO_32 * y.d));
    XorLane(x.d, 0, y.d, 0);
  }

  lemma XorLane(a: nat, b: nat, c: nat, d: nat)
    requires a < TWO_32 && c < TWO_32
    ensures Xor(a, c) < TWO_32
    ensures Xor(a + TWO_32 * b, c + TWO_32 * d) == Xor(a, c) + TWO_32 * Xor(b, d)
  {
    hide Xor, Mul;
    Pow2Values();
    XorCut(32, TWO_32, a, b, c, d);
  }

  // The top bits that the three left shifts keep of a lane.
  function TopBits(x: nat): nat {
    Xor(Xor(x * 0x8000_0000 % TWO_32, x * 0x4000_0000 % TWO_32), x * 0x200_0000 % TWO_32)
  }

  function Cleared(t3: Lanes): Lanes {
    Lanes(t3.a, t3.b, t3.c, Xor(t3.d, TopBits(t3.a)))
  }

  // The polynomial q + q/x + q/x^2 + q/x^7 in the reflected order.
  function Spread(q: nat): nat {
    Xor(q, Xor(Xor(q / 2, q / 4), q / 128))
  }

  lemma ShiftedDigits(x: nat)
    ensures x * 0x8000_0000 % TWO_32 == 0x8000_0000 * (x % 2)
    ensures x * 0x4000_0000 % TWO_32 == 0x4000_0000 * (x % 4)
    ensures x * 0x200_0000 % TWO_32 == 0x200_0000 * (x % 128)
  {
    Quotient(x * 0x8000_0000, TWO_32, x / 2, 0x8000_0000 * (x % 2));
    Quotient(x * 0x4000_0000, TWO_32, x / 4, 0x4000_0000 * (x % 4));
    Quotient(x * 0x200_0000, TWO_32, x / 128, 0x200_0000 * (x % 128));
  }

  lemma TopBitsDigits(x: nat)
    ensures TopBits(x) == Xor(Xor(0x8000_0000 * (x % 2), 0x4000_0000 * (x % 4)), 0x200_0000 * (x % 128))
  {
    hide Xor, Mul;
    ShiftedDigits(x);
  }

  lemma SevenBits()
    ensures Pow2(7) == 128
  {
  }

  lemma TopBitsBound(x: nat)
    ensures TopBits(x) < TWO_32 && TopBits(x) % 0x200_0000 == 0
  {
    hide Xor, TopBits, Pow2;
    TopBitsDigits(x);
    var h, i, j := x % 2 * 64, x % 4 * 32, x % 128;
    Xor25(h, i);
    Xor25(Xor(h, i), j);
    SevenBits();
    XorBound(h, i, 7);
    XorBound(Xor(h, i), j, 7);
    Quotient(TopBits(x), 0x200_0000, Xor(Xor(h, i), j), 0);
  }

  lemma Xor25(a: nat, b: nat)
    ensures Xor(0x200_0000 * a, 0x200_0000 * b) == 0x200_0000 * Xor(a, b)
  {
    hide Xor, Mul;
    Pow2Values();
    XorCut(25, 0x200_0000, 0, a, 0, b);
    XorZero(0);
  }

  // A lane shifted right with the low bits of the lane above moved in.
  lemma SpreadLane(q: nat, above: nat)
    requires q < TWO_32
    ensures Xor(Xor(Xor(q / 2, q / 4), q / 128), TopBits(above)) ==
            Xor(Xor(q / 2 + 0x8000_0000 * (above % 2), q / 4 + 0x4000_0000 * (above % 4)),
                q / 128 + 0x200_0000 * (above % 128))
  {
    hide Xor, Mul;
    TopBitsDigits(above);
    MoveIn(q / 2, q / 4, q / 128, above % 2, above % 4, above % 128);
  }

  lemma MoveIn(x: nat, y: nat, z: nat, p: nat, r: nat, s: nat)
    requires x < 0x8000_0000 && y < 0x4000_0000 && z < 0x200_0000
    ensures Xor(Xor(Xor(x, y), z), Xor(Xor(0x8000_0000 * p, 0x4000_0000 * r), 0x200_0000 * s)) ==
            Xor(Xor(x + 0x8000_0000 * p, y + 0x4000_0000 * r), z + 0x200_0000 * s)
  {
    hide Xor;
    Pow2Values();
    var a, b, c := 0x8000_0000 * p, 0x4000_0000 * r, 0x200_0000 * s;
    XorApart(31, 0x8000_0000, x, p);
    XorApart(30, 0x4000_0000, y, r);
    XorApart(25, 0x200_0000, z, s);
    XorSwap(Xor(x, y), z, Xor(a, b), c);
    XorSwap(x, y, a, b);
  }

  lemma XorOfLow7(a: nat, b: nat)
    requires b % 0x200_0000 == 0
    ensures Xor(a, b) % 128 == a % 128
  {
    hide Xor;
    Pow2Values();
    var r, s, t := a % 0x200_0000, a / 0x200_0000, b / 0x200_0000;
    XorCut(25, 0x200_0000, r, s, 0, t);
    XorZero(r);
    LowSeven(r, s);
    LowSeven(r, Xor(s, t));
  }

  lemma LowSeven(r: nat, s: nat)
    ensures (r + 0x200_0000 * s) % 128 == r % 128
  {
    var k := r / 128 + 0x4_0000 * s;
    assert r + 0x200_0000 * s == r % 128 + 128 * k;
    LowSevenOf(r % 128, k);
  }

  lemma LowSevenOf(low: nat, k: nat)
    requires low < 128
    ensures (low + 128 * k) % 128 == low
  {
  }

  // The low half of q * MODULUS and its high half.
  lemma MulModulus(q: nat)
    requires q < TWO_128
    ensures Mul(MODULUS, q) ==
      Xor(Xor(Xor(q, TWO_121 * (q % 128)), TWO_126 * (q % 4)), TWO_127 * (q % 2)) + TWO_128 * Spread(q)
  {
    hide Xor, Mul;
    ModulusTerms(q);
    var a, b, c := TWO_121 * (q % 128), TWO_126 * (q % 4), TWO_127 * (q % 2);
    XorConcat128(q, 0, a, q / 128);
    XorConcat128(Xor(q, a), Xor(0, q / 128), b, q / 4);
    XorConcat128(Xor(Xor(q, a), b), Xor(Xor(0, q / 128), q / 4), c, q / 2);
    var low := Xor(Xor(Xor(q, a), b), c);
    XorConcat128(low, Xor(Xor(Xor(0, q / 128), q / 4), q / 2), 0, q);
    XorZero(low);
    XorZero(q / 128);
    SpreadOrder(q, q / 2, q / 4, q / 128);
  }

  lemma SpreadOrder(q: nat, q2: nat, q4: nat, q128: nat)
    ensures Xor(Xor(Xor(q128, q4), q2), q) == Xor(q, Xor(Xor(q2, q4), q128))
  {
    hide Xor;
    XorComm(Xor(Xor(q128, q4), q2), q);
    XorComm(q128, q4);
    XorComm(Xor(q4, q128), q2);
    XorAssoc(q2, q4, q128);
  }

  lemma ModulusTerms(q: nat)
    ensures Mul(MODULUS, q) == Xor(Xor(Xor(Xor(q, TWO_121 * q), TWO_126 * q), TWO_127 * q), TWO_128 * q)
  {
    hide Xor, Mul;
    Pow2Values();
    XorApart(121, TWO_121, 1, 1);
    XorApart(126, TWO_126, 1 + TWO_121, 1);
    XorApart(127, TWO_127, 1 + TWO_121 + TWO_126, 1);
    XorApart(128, TWO_128, 1 + TWO_121 + TWO_126 + TWO_127, 1);
    MulTerm(121, TWO_121, 1, q);
    MulTerm(126, TWO_126, 1 + TWO_121, q);
    MulTerm(127, TWO_127, 1 + TWO_121 + TWO_126, q);
    MulTerm(128, TWO_128, 1 + TWO_121 + TWO_126 + TWO_127, q);
    MulOne(q);
  }

  lemma MulTerm(n: nat, p: nat, rest: nat, q: nat)
    requires p == Pow2(n)
    ensures Mul(Xor(rest, p), q) == Xor(Mul(rest, q), p * q)
  {
    hide Xor, Mul;
    MulDistributesLeft(rest, p, q);
    ShlIsTimesPow2(n, 1);
    MulShlLeft(n, 1, q);
    MulOne(q);
    ShlIsTimesPow2(n, q);
  }

  // The cleared register is the multiplier that cancels the low half.
  lemma ClearedCancels(t3: Lanes)
    requires IsRegister(t3)
    ensures IsRegister(Cleared(t3))
    ensures var q := FromLanes(Cleared(t3));
            FromLanes(t3) == Xor(Xor(Xor(q, TWO_121 * (q % 128)), TWO_126 * (q % 4)), TWO_127 * (q % 2))
  {
    hide Xor;
    var s := TopBits(t3.a);
    TopBitsBound(t3.a);
    var top := Lanes(0, 0, 0, s);
    XorZero(t3.a); XorZero(t3.b); XorZero(t3.c);
    XorOfLanes(t3, top);
    assert XorLanes(t3, top) == Cleared(t3);
    var q := FromLanes(Cleared(t3));
    SmallMods(Cleared(t3));
    TopBitsDigits(t3.a);
    var x, y, z := TWO_127 * (q % 2), TWO_126 * (q % 4), TWO_121 * (q % 128);
    Xor96(0x8000_0000 * (q % 2), 0x4000_0000 * (q % 4));
    Xor96(Xor(0x8000_0000 * (q % 2), 0x4000_0000 * (q % 4)), 0x200_0000 * (q % 128));
    assert TWO_96 * s == Xor(Xor(x, y), z);
    UndoTop(FromLanes(t3), x, y, z);
  }

  lemma SmallMods(x: Lanes)
    ensures FromLanes(x) % 2 == x.a % 2 && FromLanes(x) % 4 == x.a % 4 && FromLanes(x) % 128 == x.a % 128
  {
    DropHigh(x.a, x.b + TWO_32 * (x.c + TWO_32 * x.d));
    SmallerDigits(FromLanes(x));
    SmallerDigits(x.a);
  }

  lemma DropHigh(low: nat, rest: nat)
    ensures (low + TWO_32 * rest) % 128 == low % 128
  {
    var y := low / 128 + 0x200_0000 * rest;
    assert low + TWO_32 * rest == 128 * y + low % 128;
  }

  lemma Xor96(a: nat, b: nat)
    ensures TWO_96 * Xor(a, b) == Xor(TWO_96 * a, TWO_96 * b)
  {
    hide Xor;
    Pow2Values();
    Pow2Add(64, 32);
    XorCut(96, TWO_96, 0, a, 0, b);
    XorZero(0);
  }

  lemma UndoTop(t: nat, x: nat, y: nat, z: nat)
    ensures Xor(Xor(Xor(Xor(t, Xor(Xor(x, y), z)), z), y), x) == t
  {
    hide Xor;
    XorAssoc(t, Xor(Xor(x, y), z), z);
    XorAssoc(Xor(x, y), z, z);
    XorSelf(z);
    XorZero(Xor(x, y));
    XorAssoc(t, Xor(x, y), y);
    XorAssoc(x, y, y);
    XorSelf(y);
    XorZero(x);
    XorAssoc(t, x, x);
    XorSelf(x);
    XorZero(t);
  }

  // The right shifts of the fold, with the bits of the lane above.
  function RightShifts(q: Lanes, t3: Lanes): Lanes {
    var t7 := Lanes(TopBits(t3.a), TopBits(t3.b), TopBits(t3.c), TopBits(t3.d));
    XorLanes(XorLanes(XorLanes(SrliEpi32(q, 2), SrliEpi32(q, 4)), SrliEpi32(q, 128)), Down4(t7))
  }

  // A register shifted right by one, two and seven places.
  function Down1Bit(q: Lanes): Lanes {
    Lanes(q.a / 2 + 0x8000_0000 * (q.b % 2), q.b / 2 + 0x8000_0000 * (q.c % 2), q.c / 2 + 0x8000_0000 * (q.d % 2), q.d / 2)
  }

  function Down2Bits(q: Lanes): Lanes {
    Lanes(q.a / 4 + 0x4000_0000 * (q.b % 4), q.b / 4 + 0x4000_0000 * (q.c % 4), q.c / 4 + 0x4000_0000 * (q.d % 4), q.d / 4)
  }

  function Down7Bits(q: Lanes): Lanes {
    Lanes(q.a / 128 + 0x200_0000 * (q.b % 128), q.b / 128 + 0x200_0000 * (q.c % 128),
          q.c / 128 + 0x200_0000 * (q.d % 128), q.d / 128)
  }

  lemma DownBitsValue(q: Lanes)
    requires IsRegister(q)
    ensures IsRegister(Down1Bit(q)) && FromLanes(Down1Bit(q)) == FromLanes(q) / 2
    ensures IsRegister(Down2Bits(q)) && FromLanes(Down2Bits(q)) == FromLanes(q) / 4
    ensures IsRegister(Down7Bits(q)) && FromLanes(Down7Bits(q)) == FromLanes(q) / 128
  {
    Down1BitValue(q);
    Down2BitsValue(q);
    Down7BitsValue(q);
  }

  lemma Down1BitValue(q: Lanes)
    requires IsRegister(q)
    ensures IsRegister(Down1Bit(q)) && FromLanes(Down1Bit(q)) == FromLanes(q) / 2
  {
    assert FromLanes(q) == 2 * FromLanes(Down1Bit(q)) + q.a % 2;
  }

  lemma Down2BitsValue(q: Lanes)
    requires IsRegister(q)
    ensures IsRegister(Down2Bits(q)) && FromLanes(Down2Bits(q)) == FromLanes(q) / 4
  {
    assert FromLanes(q) == 4 * FromLanes(Down2Bits(q)) + q.a % 4;
  }

  lemma Down7BitsValue(q: Lanes)
    requires IsRegister(q)
    ensures IsRegister(Down7Bits(q)) && FromLanes(Down7Bits(q)) == FromLanes(q) / 128
  {
    assert FromLanes(q) == 128 * FromLanes(Down7Bits(q)) + q.a % 128;
  }

  lemma RightShiftsLanes(q: Lanes, t3: Lanes)
    requires IsRegister(q)
    requires q.b == t3.b && q.c == t3.c && q.d % 128 == t3.d % 128
    ensures RightShifts(q, t3) == XorLanes(XorLanes(Down1Bit(q), Down2Bits(q)), Down7Bits(q))
  {
    hide Xor, TopBits;
    LowDigits(q.d, t3.d);
    SpreadLane(q.a, t3.b); SpreadLane(q.b, t3.c); SpreadLane(q.c, t3.d);
    XorZero(Xor(Xor(q.d / 2, q.d / 4), q.d / 128));
  }

  lemma LowDigits(x: nat, y: nat)
    requires x % 128 == y % 128
    ensures x % 4 == y % 4 && x % 2 == y % 2
  {
    SmallerDigits(x);
    SmallerDigits(y);
  }

  lemma SmallerDigits(x: nat)
    ensures x % 4 == x % 128 % 4 && x % 2 == x % 128 % 2
  {
    var k, r := x / 128, x % 128;
    Quotient(x, 4, 32 * k + r / 4, r % 4);
    Quotient(x, 2, 64 * k + r / 2, r % 2);
  }

  lemma SpreadInLanes(t3: Lanes)
    requires IsRegister(t3)
    ensures var q := Cleared(t3);
            IsRegister(q) && IsRegister(RightShifts(q, t3)) &&
            FromLanes(XorLanes(q, RightShifts(q, t3))) == Spread(FromLanes(q))
  {
    hide Xor, TopBits, Down1Bit, Down2Bits, Down7Bits, FromLanes, RightShifts;
    var q := Cleared(t3);
    ClearedCancels(t3);
    TopBitsBound(t3.a);
    XorOfLow7(t3.d, TopBits(t3.a));
    RightShiftsLanes(q, t3);
    DownBitsValue(q);
    XorOfLanes(Down1Bit(q), Down2Bits(q));
    XorOfLanes(XorLanes(Down1Bit(q), Down2Bits(q)), Down7Bits(q));
    XorOfLanes(q, RightShifts(q, t3));
  }

  lemma FoldLowLanes(t3: Lanes, t6: Lanes)
    ensures FoldLow(t3, t6) == XorLanes(t6, XorLanes(Cleared(t3), RightShifts(Cleared(t3), t3)))
  {
    hide Xor;
    XorZero(t3.a); XorZero(t3.b); XorZero(t3.c);
  }

  lemma FoldLowMeaning(t3: Lanes, t6: Lanes)
    requires IsRegister(t3) && IsRegister(t6)
    ensures FromLanes(FoldLow(t3, t6)) < TWO_128
    ensures Congruent(MODULUS, TWO_128 * FromLanes(FoldLow(t3, t6)), FromLanes(t3) + TWO_128 * FromLanes(t6))
  {
    hide Xor, Mul, FromLanes, FoldLow, RightShifts;
    ClearedCancels(t3);
    SpreadInLanes(t3);
    var q := Cleared(t3);
    FoldLowLanes(t3, t6);
    var t2 := RightShifts(q, t3);
    XorOfLanes(q, t2);
    XorOfLanes(t6, XorLanes(q, t2));
    var v := FromLanes(q);
    RegisterBound(q);
    RegisterBound(t3);
    RegisterBound(FoldLow(t3, t6));
    MulModulus(v);
    CancelLow(FromLanes(t3), FromLanes(t6), Spread(v));
    assert Xor(TWO_128 * FromLanes(FoldLow(t3, t6)), FromLanes(t3) + TWO_128 * FromLanes(t6)) == Mul(MODULUS, v);
  }

  lemma RegisterBound(x: Lanes)
    requires IsRegister(x)
    ensures FromLanes(x) < TWO_128
  {
  }

  lemma CancelLow(low: nat, high: nat, s: nat)
    requires low < TWO_128
    ensures Xor(TWO_128 * Xor(high, s), low + TWO_128 * high) == low + TWO_128 * s
  {
    hide Xor;
    XorConcat128(0, Xor(high, s), low, high);
    XorZero(low);
    XorComm(high, s);
    XorAssoc(s, high, high);
    XorSelf(high);
    XorZero(s);
  }

  // ----- the multiplier computes the product of section 6.3 -----

  lemma GfReduceIsResidue(lo: nat, hi: nat)
    requires lo < TWO_128 && hi < TWO_128 / 2
    ensures IsResidue(GfReduce(lo, hi), lo + TWO_128 * hi)
  {
    hide Xor, Mul, FoldLow, ShiftOne;
    Pow2Values();
    LanesRoundTrip(lo);
    LanesRoundTrip(hi);
    assert ToLanes(hi).d < 0x8000_0000;
    ShiftOneDoubles(ToLanes(lo), ToLanes(hi));
    var (t3, t6) := ShiftOne(ToLanes(lo), ToLanes(hi));
    FoldLowMeaning(t3, t6);
    ShlValues(GfReduce(lo, hi));
  }

  lemma GfMulIsNistMul(a: nat, b: nat)
    requires a < TWO_128 && b < TWO_128
    ensures GfMul(a, b) == NistMul(a, b)
  {
    hide Xor, Mul, GfProduct, GfReduce, NistMul;
    Pow2Values();
    GfProductIsMul(a, b);
    var (lo, hi) := GfProduct(a, b);
    GfReduceIsResidue(lo, hi);
    NistMulIsResidue(a, b);
    ResidueUnique(GfMul(a, b), NistMul(a, b), Mul(a, b));
  }
}
