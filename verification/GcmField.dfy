// GF(2^128) as section 6.3 of NIST SP 800-38D defines it. A block is the
// big-endian integer of its sixteen bytes, so the standard's leftmost bit is
// the most significant digit here and the coefficient of x^0.
module GcmField {
  import opened Powers
  import opened Gf2

  // The standard's constant R = 11100001 || 0^120.
  const R: nat := 0xE1000000_00000000_00000000_00000000

  // y^128 * (1 + x + x^2 + x^7 + x^128) with y = 1/x: the reduction polynomial
  // read in the reflected order of the integers.
  const MODULUS: nat := 0x1_C2000000_00000000_00000000_00000001

  function NistShift(v: nat): nat {
    if v % 2 == 0 then v / 2 else Xor(v / 2, R)
  }

  // The last k steps of Algorithm 1: k digits of x, most significant first.
  function NistSteps(k: nat, x: nat, z: nat, v: nat): nat {
    if k == 0 then z
    else NistSteps(k - 1, x, Xor(z, Scale(Shr(k - 1, x), v)), NistShift(v))
  }

  // X * Y by Algorithm 1 of section 6.3.
  function NistMul(x: nat, y: nat): nat {
    NistSteps(128, x, 0, y)
  }

  lemma {:induction false} NistStepsBound(k: nat, x: nat, z: nat, v: nat)
    requires z < Pow2(128) && v < Pow2(128)
    ensures NistSteps(k, x, z, v) < Pow2(128)
  {
    hide Xor, Shr;
    if k > 0 {
      Pow2Values();
      XorBound(v / 2, R, 128);
      XorBound(z, Scale(Shr(k - 1, x), v), 128);
      NistStepsBound(k - 1, x, Xor(z, Scale(Shr(k - 1, x), v)), NistShift(v));
    }
  }

  // Shifting is division by x: doubling the shifted value gives the value back.
  lemma NistShiftHalves(v: nat)
    ensures Congruent(MODULUS, 2 * NistShift(v), v)
  {
    if v % 2 == 0 {
      CongruentRefl(MODULUS, v);
    } else {
      XorDouble(v / 2, R);
      XorDisjoint(1, 1, v / 2);
      assert Pow2(1) == 2;
      assert Xor(1, 2 * (v / 2)) == v;
      assert Xor(1, 2 * R) == MODULUS by { XorDisjoint(1, 1, R); }
      XorComm(1, 2 * (v / 2));
      XorComm(1, 2 * R);
      XorCancel(2 * R, 1, 2 * (v / 2));
      XorComm(2 * (v / 2), 2 * R);
      XorComm(1, 2 * (v / 2));
      MulIdentity(MODULUS);
      assert Xor(2 * NistShift(v), v) == Mul(MODULUS, 1);
    }
  }

  lemma MulIdentity(a: nat)
    ensures Mul(a, 1) == a
  {
    MulComm(a, 1);
    MulOne(a);
  }

  lemma MulOneDigit(v: nat, bit: nat)
    ensures Mul(v, bit % 2) == Scale(bit, v)
  {
    MulIdentity(v);
  }

  // k steps compute v * x / 2^(k-1), read on the low k digits of x.
  lemma {:induction false} NistStepsMeaning(k: nat, x: nat, z: nat, v: nat)
    ensures Congruent(MODULUS, Shl(k, NistSteps(k, x, z, v)), Xor(Shl(k, z), 2 * Mul(v, Low(k, x))))
  {
    hide Xor, Shr;
    if k == 0 {
      CongruentRefl(MODULUS, z);
      XorZero(z);
    } else {
      var bit := Shr(k - 1, x);
      var low := Low(k - 1, x);
      var z', v' := Xor(z, Scale(bit, v)), NistShift(v);
      var result := NistSteps(k - 1, x, z', v');
      assert NistSteps(k, x, z, v) == result;
      NistStepsMeaning(k - 1, x, z', v');
      var middle := Xor(Shl(k - 1, z'), 2 * Mul(v', low));
      CongruentDouble(MODULUS, Shl(k - 1, result), middle);
      assert Shl(k, result) == 2 * Shl(k - 1, result);
      HalvedProduct(k, z', v, low);
      AbsorbDigit(k, z, v, bit, low);
      LowNext(k - 1, x);
      CongruentTrans(MODULUS, Shl(k, result), 2 * middle, Xor(Shl(k, z), 2 * Mul(v, Low(k, x))));
    }
  }

  lemma CongruentDouble(m: nat, a: nat, b: nat)
    requires Congruent(m, a, b)
    ensures Congruent(m, 2 * a, 2 * b)
  {
    hide Xor, Mul, NistSteps;
    CongruentShl(m, 1, a, b);
    assert Shl(1, a) == 2 * Shl(0, a) && Shl(1, b) == 2 * Shl(0, b);
  }

  lemma HalvedProduct(k: nat, z: nat, v: nat, low: nat)
    requires k > 0
    ensures Congruent(MODULUS, 2 * Xor(Shl(k - 1, z), 2 * Mul(NistShift(v), low)), Xor(Shl(k, z), 2 * Mul(v, low)))
  {
    hide Xor, Mul, NistSteps;
    var v' := NistShift(v);
    XorDouble(Shl(k - 1, z), 2 * Mul(v', low));
    MulDoubleLeft(v', low);
    NistShiftHalves(v);
    CongruentMul(MODULUS, low, 2 * v', v);
    MulComm(low, 2 * v');
    MulComm(low, v);
    CongruentDouble(MODULUS, Mul(2 * v', low), Mul(v, low));
    CongruentRefl(MODULUS, Shl(k, z));
    CongruentXor(MODULUS, Shl(k, z), Shl(k, z), 2 * Mul(2 * v', low), 2 * Mul(v, low));
  }

  // The digit of x met by this step moves from the accumulator into the product.
  lemma AbsorbDigit(k: nat, z: nat, v: nat, bit: nat, low: nat)
    requires k > 0 && low < Pow2(k - 1)
    ensures Xor(Shl(k, Xor(z, Scale(bit, v))), 2 * Mul(v, low))
         == Xor(Shl(k, z), 2 * Mul(v, low + Shl(k - 1, bit % 2)))
  {
    hide Xor, Mul, NistSteps;
    var s := Scale(bit, v);
    XorShl(k, z, s);
    XorAssoc(Shl(k, z), Shl(k, s), 2 * Mul(v, low));
    XorComm(Shl(k, s), 2 * Mul(v, low));
    ShlIsTimesPow2(k - 1, bit % 2);
    XorDisjoint(k - 1, low, bit % 2);
    MulDistributesRight(v, low, Shl(k - 1, bit % 2));
    MulShl(k - 1, v, bit % 2);
    MulOneDigit(v, bit);
    XorDouble(Mul(v, low), Shl(k - 1, s));
  }

  // ----- what it means to be a product -----

  // r is the residue of the 255-bit reflected product t, one digit up.
  ghost predicate IsResidue(r: nat, t: nat) {
    r < Pow2(128) && Congruent(MODULUS, Shl(128, r), 2 * t)
  }

  lemma ResidueUnique(r: nat, s: nat, t: nat)
    requires IsResidue(r, t) && IsResidue(s, t)
    ensures r == s
  {
    hide Xor, Mul, NistSteps;
    Pow2Values();
    CongruentSym(MODULUS, Shl(128, s), 2 * t);
    CongruentTrans(MODULUS, Shl(128, r), 2 * t, Shl(128, s));
    CongruentCancelShl(MODULUS, 128, r, s);
    CongruentUnique(MODULUS, 128, r, s);
  }

  lemma ResidueLinear(r: nat, t: nat, s: nat, u: nat)
    requires IsResidue(r, t) && IsResidue(s, u)
    ensures IsResidue(Xor(r, s), Xor(t, u))
  {
    hide Xor, Mul, NistSteps;
    XorBound(r, s, 128);
    XorShl(128, r, s);
    XorDouble(t, u);
    CongruentXor(MODULUS, Shl(128, r), 2 * t, Shl(128, s), 2 * u);
  }

  lemma NistMulIsResidue(x: nat, y: nat)
    requires x < Pow2(128) && y < Pow2(128)
    ensures IsResidue(NistMul(x, y), Mul(x, y))
  {
    NistStepsBound(128, x, 0, y);
    NistStepsMeaning(128, x, 0, y);
    LowOfSmall(128, x);
    ShlIsTimesPow2(128, 0);
    MulComm(x, y);
  }

  // ----- the block 1 0^127 is one, and 0 1 0^126 is x -----

  lemma OneIsIdentity(a: nat)
    requires a < Pow2(128)
    ensures NistMul(a, Pow2(127)) == a
  {
    hide Xor, Mul, NistMul, Shl, Pow2;
    Pow2Monotonic(127, 128);
    TwiceHalf(127);
    NistMulIsResidue(a, Pow2(127));
    TimesPower(a, 127);
    ShlNext(127, a);
    CongruentRefl(MODULUS, Shl(128, a));
    ResidueUnique(NistMul(a, Pow2(127)), a, Mul(a, Pow2(127)));
  }

  // Multiplying by x moves every bit one place to the right, and reduces by R what falls out.
  lemma TimesX(a: nat)
    requires a < Pow2(128)
    ensures NistMul(a, Pow2(126)) == if a % 2 == 0 then a / 2 else Xor(a / 2, 0xE1000000_00000000_00000000_00000000)
  {
    hide Xor, Mul, NistMul, NistShift, Shl, Pow2;
    TwiceHalf(126);
    TwiceHalf(127);
    NistMulIsResidue(a, Pow2(126));
    TimesPower(a, 126);
    ShlNext(126, a);
    var s := NistShift(a);
    ShiftIs(a);
    NistShiftHalves(a);
    CongruentShl(MODULUS, 127, 2 * s, a);
    ShlDouble(127, s);
    ShlNext(127, s);
    ResidueUnique(NistMul(a, Pow2(126)), s, Mul(a, Pow2(126)));
  }

  lemma TwiceHalf(n: nat)
    ensures Pow2(n + 1) == 2 * Pow2(n) && Pow2(n) < Pow2(n + 1)
  {
  }

  lemma TimesPower(a: nat, n: nat)
    ensures Mul(a, Pow2(n)) == Shl(n, a)
  {
    hide Xor, Mul, Shl;
    ShlIsTimesPow2(n, 1);
    MulShl(n, a, 1);
    MulIdentity(a);
  }

  lemma ShlNext(n: nat, a: nat)
    ensures Shl(n + 1, a) == 2 * Shl(n, a)
  {
  }

  lemma ShiftIs(a: nat)
    requires a < Pow2(128)
    ensures NistShift(a) == if a % 2 == 0 then a / 2 else Xor(a / 2, 0xE1000000_00000000_00000000_00000000)
    ensures NistShift(a) < Pow2(128)
  {
    Pow2Values();
    hide Xor, Pow2;
    XorBound(a / 2, R, 128);
  }

  // The last bit of a block is x^127: times x it is 1 + x + x^2 + x^7.
  lemma LastBitTimesX()
    ensures NistMul(1, 0x40000000_00000000_00000000_00000000) == 0xE1000000_00000000_00000000_00000000
  {
    hide NistMul;
    Pow2Values();
    hide Pow2;
    TimesX(1);
    XorZero(R);
  }

  // ----- the field laws the aggregated forms rest on -----

  lemma NistMulComm(x: nat, y: nat)
    requires x < Pow2(128) && y < Pow2(128)
    ensures NistMul(x, y) == NistMul(y, x)
  {
    hide Xor, Mul, NistSteps;
    NistMulIsResidue(x, y);
    NistMulIsResidue(y, x);
    MulComm(x, y);
    ResidueUnique(NistMul(x, y), NistMul(y, x), Mul(x, y));
  }

  lemma NistMulDistributes(x: nat, y: nat, z: nat)
    requires x < Pow2(128) && y < Pow2(128) && z < Pow2(128)
    ensures Xor(x, y) < Pow2(128)
    ensures NistMul(Xor(x, y), z) == Xor(NistMul(x, z), NistMul(y, z))
  {
    hide Xor, Mul, NistSteps;
    XorBound(x, y, 128);
    NistMulIsResidue(x, z);
    NistMulIsResidue(y, z);
    NistMulIsResidue(Xor(x, y), z);
    MulDistributesLeft(x, y, z);
    ResidueLinear(NistMul(x, z), Mul(x, z), NistMul(y, z), Mul(y, z));
    ResidueUnique(NistMul(Xor(x, y), z), Xor(NistMul(x, z), NistMul(y, z)), Mul(Xor(x, y), z));
  }

  // 2^256 * ((x y) z) is congruent to 4 (x (x) y (x) z).
  lemma TripleProduct(x: nat, y: nat, z: nat)
    requires x < Pow2(128) && y < Pow2(128) && z < Pow2(128)
    ensures NistMul(x, y) < Pow2(128) && NistMul(NistMul(x, y), z) < Pow2(128)
    ensures Congruent(MODULUS, Shl(128, Shl(128, NistMul(NistMul(x, y), z))), 4 * Mul(Mul(x, y), z))
  {
    hide Xor, Mul, NistSteps;
    var p := NistMul(x, y);
    NistMulIsResidue(x, y);
    NistMulIsResidue(p, z);
    var r := NistMul(p, z);
    CongruentShl(MODULUS, 128, Shl(128, r), 2 * Mul(p, z));
    ShlDouble(128, Mul(p, z));
    MulShlLeft(128, p, z);
    CongruentMul(MODULUS, z, Shl(128, p), 2 * Mul(x, y));
    MulComm(z, Shl(128, p));
    MulComm(z, 2 * Mul(x, y));
    MulDoubleLeft(Mul(x, y), z);
    CongruentDouble(MODULUS, Mul(Shl(128, p), z), 2 * Mul(Mul(x, y), z));
    CongruentTrans(MODULUS, Shl(128, Shl(128, r)), 2 * Mul(Shl(128, p), z), 4 * Mul(Mul(x, y), z));
  }

  lemma NistMulAssoc(x: nat, y: nat, z: nat)
    requires x < Pow2(128) && y < Pow2(128) && z < Pow2(128)
    ensures NistMul(x, y) < Pow2(128) && NistMul(y, z) < Pow2(128)
    ensures NistMul(NistMul(x, y), z) == NistMul(x, NistMul(y, z))
  {
    hide Xor, Mul, NistSteps;
    TripleProduct(x, y, z);
    TripleProduct(y, z, x);
    var l, r := NistMul(NistMul(x, y), z), NistMul(NistMul(y, z), x);
    NistMulComm(x, NistMul(y, z));
    MulAssoc(x, y, z);
    MulComm(x, Mul(y, z));
    var t := 4 * Mul(Mul(x, y), z);
    CongruentSym(MODULUS, Shl(128, Shl(128, r)), t);
    CongruentTrans(MODULUS, Shl(128, Shl(128, l)), t, Shl(128, Shl(128, r)));
    CongruentCancelShl(MODULUS, 128, Shl(128, l), Shl(128, r));
    CongruentCancelShl(MODULUS, 128, l, r);
    Pow2Values();
    CongruentUnique(MODULUS, 128, l, r);
  }
}
