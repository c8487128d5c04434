// The AArch64 multiplier. With the bits of every byte reversed a block is an
// ordinary polynomial, least significant digit first; the product is folded
// down twice with x^128 = x^7 + x^2 + x + 1.
module GcmArm {
  import opened Powers
  import opened Gf2
  import opened GcmField
  import X86 = GcmX86

  // x^128 + x^7 + x^2 + x + 1
  const POLYNOMIAL: nat := 0x1_00000000_00000000_00000000_00000087

  // vmull_p64 on the four pairs of halves; vextq_u64 moves the middle by eight bytes.
  function GfMul(a: nat, b: nat): nat {
    var (lo, hi) := X86.GfProduct(a, b);
    FoldTwice(lo, hi % TWO_64, hi / TWO_64)
  }

  function FoldTwice(lo: nat, hi0: nat, hi1: nat): nat {
    var t := Mul(hi1, 0x87);
    var lo' := Xor(lo, X86.UpEightBytes(t));
    var h0 := Xor(hi0, X86.DownEightBytes(t));
    Xor(lo', Mul(h0, 0x87))
  }

  // The low k digits of x in the opposite order.
  function Reverse(k: nat, x: nat): nat {
    if k == 0 then 0 else Shr(k - 1, x) % 2 + 2 * Reverse(k - 1, x)
  }

  lemma {:induction false} ReverseFromBelow(k: nat, x: nat)
    requires k > 0
    ensures Reverse(k, x) == Shl(k - 1, x % 2) + Reverse(k - 1, x / 2)
  {
    if k > 1 { ReverseFromBelow(k - 1, x); }
  }

  lemma {:induction false} ReverseBound(k: nat, x: nat)
    ensures Reverse(k, x) < Pow2(k)
  {
    if k > 0 { ReverseBound(k - 1, x); }
  }

  // Digit i of the reversed number is digit k - 1 - i of the number.
  lemma {:induction false} ReverseDigit(k: nat, x: nat, i: nat)
    requires i < k
    ensures Shr(i, Reverse(k, x)) % 2 == Shr(k - 1 - i, x) % 2
  {
    if i > 0 {
      assert Reverse(k, x) / 2 == Reverse(k - 1, x);
      ReverseDigit(k - 1, x, i - 1);
    }
  }

  lemma {:induction false} ShrXor(k: nat, a: nat, b: nat)
    ensures Shr(k, Xor(a, b)) == Xor(Shr(k, a), Shr(k, b))
  {
    hide Xor;
    if k > 0 {
      XorDigits(a, b);
      ShrXor(k - 1, a / 2, b / 2);
    }
  }

  lemma {:induction false} ReverseXor(k: nat, a: nat, b: nat)
    ensures Reverse(k, Xor(a, b)) == Xor(Reverse(k, a), Reverse(k, b))
  {
    hide Xor, Shr;
    XorZero(0);
    if k > 0 {
      ReverseXor(k - 1, a, b);
      ShrXor(k - 1, a, b);
      XorDigits(Shr(k - 1, a), Shr(k - 1, b));
      XorJoin(Shr(k - 1, a) % 2, Reverse(k - 1, a), Shr(k - 1, b) % 2, Reverse(k - 1, b));
    }
  }

  lemma XorJoin(a: nat, b: nat, c: nat, d: nat)
    requires a < 2 && c < 2
    ensures Xor(a + 2 * b, c + 2 * d) == Differ(a, c) + 2 * Xor(b, d)
  {
    hide Xor;
    XorDigits(a + 2 * b, c + 2 * d);
  }

  // ----- the product is a remainder -----

  ghost predicate IsRemainder(r: nat, t: nat) {
    r < Pow2(128) && Congruent(POLYNOMIAL, r, t)
  }

  lemma RemainderUnique(r: nat, s: nat, t: nat)
    requires IsRemainder(r, t) && IsRemainder(s, t)
    ensures r == s
  {
    hide Mul, Xor;
    Pow2Values();
    CongruentSym(POLYNOMIAL, s, t);
    CongruentTrans(POLYNOMIAL, r, t, s);
    CongruentUnique(POLYNOMIAL, 128, r, s);
  }

  lemma MulPolynomial(h: nat)
    ensures Mul(POLYNOMIAL, h) == Xor(Mul(h, 0x87), TWO_128 * h)
  {
    hide Mul, Xor;
    Pow2Values();
    XorApart(128, TWO_128, 0x87, 1);
    X86.MulTerm(128, TWO_128, 0x87, h);
    MulComm(0x87, h);
  }

  // x^128 h is congruent to (x^7 + x^2 + x + 1) h.
  lemma FoldOnce(a: nat, h: nat)
    ensures Congruent(POLYNOMIAL, Xor(a, Mul(h, 0x87)), Xor(a, TWO_128 * h))
  {
    hide Mul, Xor;
    MulPolynomial(h);
    XorComm(a, Mul(h, 0x87));
    XorComm(a, TWO_128 * h);
    XorCancel(Mul(h, 0x87), TWO_128 * h, a);
    assert Xor(Xor(a, Mul(h, 0x87)), Xor(a, TWO_128 * h)) == Mul(POLYNOMIAL, h);
  }

  lemma GfMulIsRemainder(a: nat, b: nat)
    requires a < TWO_128 && b < TWO_128
    ensures IsRemainder(GfMul(a, b), Mul(a, b))
  {
    hide Mul, Xor, X86.GfProduct, FoldTwice;
    X86.GfProductIsMul(a, b);
    var (lo, hi) := X86.GfProduct(a, b);
    FoldTwiceIsRemainder(lo, hi % TWO_64, hi / TWO_64);
  }

  lemma FoldTwiceIsRemainder(lo: nat, h0: nat, h1: nat)
    requires lo < TWO_128 && h0 < TWO_64 && h1 < TWO_64
    ensures IsRemainder(FoldTwice(lo, h0, h1), lo + TWO_128 * (h0 + TWO_64 * h1))
  {
    hide Mul, Xor, Congruent, X86.UpEightBytes, X86.DownEightBytes;
    FirstFold(lo, h0, h1);
    SecondFold(lo, h0, h1);
    var t := Mul(h1, 0x87);
    var lo' := Xor(lo, X86.UpEightBytes(t));
    CongruentTrans(POLYNOMIAL, FoldTwice(lo, h0, h1),
      lo' + TWO_128 * Xor(h0, X86.DownEightBytes(t)), lo + TWO_128 * (h0 + TWO_64 * h1));
    FoldBound(lo', h0, h1);
    Pow2Values();
  }

  lemma SecondFold(lo: nat, h0: nat, h1: nat)
    requires lo < TWO_128
    ensures var t := Mul(h1, 0x87);
            var lo', h := Xor(lo, X86.UpEightBytes(t)), Xor(h0, X86.DownEightBytes(t));
            lo' < TWO_128 && Congruent(POLYNOMIAL, Xor(lo', Mul(h, 0x87)), lo' + TWO_128 * h)
  {
    hide Mul, Xor;
    var t := Mul(h1, 0x87);
    var lo', h := Xor(lo, X86.UpEightBytes(t)), Xor(h0, X86.DownEightBytes(t));
    X86.XorConcat128(lo, 0, X86.UpEightBytes(t), 0);
    FoldOnce(lo', h);
    Pow2Values();
    XorApart(128, TWO_128, lo', h);
  }

  lemma FoldBound(lo: nat, h0: nat, h1: nat)
    requires lo < TWO_128 && h0 < TWO_64 && h1 < TWO_64
    ensures Xor(lo, Mul(Xor(h0, X86.DownEightBytes(Mul(h1, 0x87))), 0x87)) < TWO_128
  {
    hide Mul, Xor;
    Pow2Values();
    MulBound(h1, 0x87, 64, 8);
    Pow2Monotonic(71, 128);
    var down := X86.DownEightBytes(Mul(h1, 0x87));
    XorBound(h0, down, 64);
    MulBound(Xor(h0, down), 0x87, 64, 8);
    XorBound(lo, Mul(Xor(h0, down), 0x87), 128);
  }

  // The top 64 bits, folded in at x^64.
  lemma FirstFold(lo: nat, h0: nat, h1: nat)
    requires lo < TWO_128 && h0 < TWO_64 && h1 < TWO_64
    ensures var t := Mul(h1, 0x87);
            Congruent(POLYNOMIAL, Xor(lo, X86.UpEightBytes(t)) + TWO_128 * Xor(h0, X86.DownEightBytes(t)),
                      lo + TWO_128 * (h0 + TWO_64 * h1))
  {
    hide Mul, Xor, Congruent, Shl;
    var t := Mul(h1, 0x87);
    FoldOnce(lo + TWO_128 * h0, TWO_64 * h1);
    X86.ShlValues(h1);
    MulShlLeft(64, h1, 0x87);
    X86.ShlValues(t);
    JoinFold(lo, h0, t);
    JoinTop(lo, h0, h1);
  }

  lemma JoinFold(lo: nat, h0: nat, t: nat)
    requires lo < TWO_128
    ensures Xor(lo + TWO_128 * h0, TWO_64 * t) == Xor(lo, X86.UpEightBytes(t)) + TWO_128 * Xor(h0, X86.DownEightBytes(t))
  {
    hide Xor;
    assert TWO_64 * t == X86.UpEightBytes(t) + TWO_128 * X86.DownEightBytes(t);
    X86.XorConcat128(lo, h0, X86.UpEightBytes(t), X86.DownEightBytes(t));
  }

  lemma JoinTop(lo: nat, h0: nat, h1: nat)
    requires lo < TWO_128 && h0 < TWO_64
    ensures Xor(lo + TWO_128 * h0, TWO_128 * (TWO_64 * h1)) == lo + TWO_128 * (h0 + TWO_64 * h1)
  {
    hide Xor;
    X86.XorConcat128(lo, h0, 0, TWO_64 * h1);
    XorZero(lo);
    Pow2Values();
    XorApart(64, TWO_64, h0, h1);
  }

  // ----- the same product as the standard's, in the opposite order of digits -----

  lemma ReverseOfR()
    ensures Reverse(128, R) == 0x87
  {
    ReverseOfShl(120, 8, 0xE1);
    Pow2Values();
    Pow2Add(64, 56);
    assert Pow2(56) == 0x100_0000_0000_0000 by { Pow2Add(32, 24); Pow2Add(16, 8); }
    ShlIsTimesPow2(120, 0xE1);
    ReverseOfE1();
  }

  lemma ReverseOfE1()
    ensures Reverse(8, 0xE1) == 0x87
  {
    assert Reverse(4, 0xE1) == 8;
    assert Reverse(6, 0xE1) == 33;
  }

  lemma {:induction false} ReverseOfShl(n: nat, k: nat, a: nat)
    ensures Reverse(n + k, Shl(n, a)) == Reverse(k, a)
  {
    if n > 0 {
      ReverseFromBelow(n + k, Shl(n, a));
      ShlIsTimesPow2(n + k - 1, 0);
      ReverseOfShl(n - 1, k, a);
    }
  }

  // Shifting in the standard's order is multiplication by x here.
  lemma ReverseOfShift(v: nat)
    requires v < Pow2(128)
    ensures Congruent(POLYNOMIAL, Reverse(128, NistShift(v)), 2 * Reverse(128, v))
  {
    hide Xor, Mul, Reverse;
    ReverseOfHalf(v);
    var w := Reverse(127, v / 2);
    Pow2Values();
    if v % 2 == 0 {
      ShlIsTimesPow2(127, 0);
      CongruentRefl(POLYNOMIAL, 2 * w);
    } else {
      ReverseXor(128, v / 2, R);
      ReverseOfR();
      ShlIsTimesPow2(127, 1);
      FoldOnce(2 * w, 1);
      MulComm(1, 0x87);
      MulIdentity(0x87);
      ReverseBound(127, v / 2);
      XorApart(128, TWO_128, 2 * w, 1);
    }
  }

  lemma ReverseOfHalf(v: nat)
    requires v < Pow2(128)
    ensures Reverse(128, v) == Shl(127, v % 2) + Reverse(127, v / 2)
    ensures Reverse(128, v / 2) == 2 * Reverse(127, v / 2)
  {
    hide Reverse, Shl, Pow2;
    ReverseHalf(128, v);
  }

  lemma ReverseHalf(k: nat, v: nat)
    requires k > 0 && v < Pow2(k)
    ensures Reverse(k, v) == Shl(k - 1, v % 2) + Reverse(k - 1, v / 2)
    ensures Reverse(k, v / 2) == 2 * Reverse(k - 1, v / 2)
  {
    ReverseFromBelow(k, v);
    ShrSmall(k - 1, v / 2);
  }

  lemma {:induction false} ShrSmall(k: nat, v: nat)
    requires v < Pow2(k)
    ensures Shr(k, v) == 0
  {
    if k > 0 { ShrSmall(k - 1, v / 2); }
  }

  lemma {:induction false} NistStepsReversed(k: nat, x: nat, z: nat, v: nat)
    requires z < Pow2(128) && v < Pow2(128)
    ensures Congruent(POLYNOMIAL, Reverse(128, NistSteps(k, x, z, v)),
                      Xor(Reverse(128, z), Mul(Reverse(128, v), Reverse(k, x))))
  {
    hide Xor, Mul, Shr, Congruent;
    var rz, rv := Reverse(128, z), Reverse(128, v);
    if k == 0 {
      CongruentRefl(POLYNOMIAL, rz);
      XorZero(rz);
      MulComm(rv, 0);
      MulZero(rv);
    } else {
      var bit := Shr(k - 1, x);
      var z', v' := Xor(z, Scale(bit, v)), NistShift(v);
      NistStepKeepsBound(z, v, bit);
      NistStepsReversed(k - 1, x, z', v');
      var rest := Reverse(k - 1, x);
      ReverseOneStep(z, v, bit, rest);
      CongruentTrans(POLYNOMIAL, Reverse(128, NistSteps(k, x, z, v)),
        Xor(Reverse(128, z'), Mul(Reverse(128, v'), rest)), Xor(rz, Mul(rv, Reverse(k, x))));
    }
  }

  lemma NistStepKeepsBound(z: nat, v: nat, bit: nat)
    requires z < Pow2(128) && v < Pow2(128)
    ensures Xor(z, Scale(bit, v)) < Pow2(128) && NistShift(v) < Pow2(128)
  {
    hide Xor;
    Pow2Values();
    XorBound(z, Scale(bit, v), 128);
    XorBound(v / 2, R, 128);
  }

  lemma ReverseOneStep(z: nat, v: nat, bit: nat, rest: nat)
    requires v < Pow2(128)
    ensures Congruent(POLYNOMIAL,
              Xor(Reverse(128, Xor(z, Scale(bit, v))), Mul(Reverse(128, NistShift(v)), rest)),
              Xor(Reverse(128, z), Mul(Reverse(128, v), bit % 2 + 2 * rest)))
  {
    hide Xor, Mul, Reverse, Congruent, NistShift, Scale;
    var rz, rv, rs := Reverse(128, z), Reverse(128, v), Reverse(128, NistShift(v));
    ReverseXor(128, z, Scale(bit, v));
    ReverseOfScale(bit, v);
    ReverseOfShift(v);
    CongruentMul(POLYNOMIAL, rest, rs, 2 * rv);
    MulComm(rest, rs);
    MulComm(rest, 2 * rv);
    var s := Scale(bit, rv);
    CongruentRefl(POLYNOMIAL, Xor(rz, s));
    CongruentXor(POLYNOMIAL, Xor(rz, s), Xor(rz, s), Mul(rs, rest), Mul(2 * rv, rest));
    AddDigit(rz, rv, bit, rest);
  }

  lemma AddDigit(z: nat, v: nat, bit: nat, rest: nat)
    ensures Xor(Xor(z, Scale(bit, v)), Mul(2 * v, rest)) == Xor(z, Mul(v, bit % 2 + 2 * rest))
  {
    hide Xor, Mul, Scale;
    Pow2Values();
    XorApart(1, 2, bit % 2, rest);
    MulDistributesRight(v, bit % 2, 2 * rest);
    MulOneDigit(v, bit);
    MulDoubleRight(v, rest);
    MulDoubleLeft(v, rest);
    XorAssoc(z, Scale(bit, v), Mul(2 * v, rest));
  }

  lemma ReverseOfScale(bit: nat, v: nat)
    ensures Reverse(128, Scale(bit, v)) == Scale(bit, Reverse(128, v))
  {
    hide Xor, Reverse;
    ReverseXor(128, v, v);
    XorSelf(v);
    XorSelf(Reverse(128, v));
  }

  // Both instruction sets compute the product of section 6.3.
  lemma GfMulIsNistMul(x: nat, y: nat)
    requires x < TWO_128 && y < TWO_128
    ensures GfMul(Reverse(128, x), Reverse(128, y)) == Reverse(128, NistMul(x, y))
    ensures GfMul(Reverse(128, x), Reverse(128, y)) == Reverse(128, X86.GfMul(x, y))
  {
    hide Xor, Mul, NistSteps, GfMul, X86.GfMul, Reverse;
    Pow2Values();
    var rx, ry := Reverse(128, x), Reverse(128, y);
    ReverseBound(128, x);
    ReverseBound(128, y);
    GfMulIsRemainder(rx, ry);
    NistStepsReversed(128, x, 0, y);
    ReverseOfZero();
    XorZero(Mul(ry, rx));
    MulComm(rx, ry);
    ReverseBound(128, NistMul(x, y));
    RemainderUnique(GfMul(rx, ry), Reverse(128, NistMul(x, y)), Mul(rx, ry));
    X86.GfMulIsNistMul(x, y);
  }

  lemma ReverseOfZero()
    ensures Reverse(128, 0) == 0
  {
    hide Xor;
    ReverseXor(128, 0, 0);
    XorZero(0);
    XorSelf(Reverse(128, 0));
  }
}
