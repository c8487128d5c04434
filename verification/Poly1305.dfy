// Poly1305 (section 2.5 of RFC 8439), four blocks at a time: each of four
// 64-bit lanes carries an accumulator of five 26-bit limbs.
module Poly1305 {
  import opened Powers
  import opened Bytes

  // 2^130 - 5
  const P: nat := 0x3_ffffffff_ffffffff_ffffffff_fffffffb

  const TWO_26: nat := 0x400_0000
  const TWO_27: nat := 0x800_0000
  const TWO_28: nat := 0x1000_0000
  const TWO_52: nat := 0x10_0000_0000_0000
  const TWO_78: nat := 0x4000_0000_0000_0000_0000
  const TWO_104: nat := 0x100_0000_0000_0000_0000_0000_0000

  // ----- congruence modulo P -----

  function Multiple(q: int): int { P * q }

  ghost predicate Cong(a: int, b: int) {
    exists q: int :: a - b == Multiple(q)
  }

  lemma CongRefl(a: int)
    ensures Cong(a, a)
  {
    assert a - a == Multiple(0);
  }

  lemma CongSym(a: int, b: int)
    requires Cong(a, b)
    ensures Cong(b, a)
  {
    var q :| a - b == Multiple(q);
    assert b - a == Multiple(-q);
  }

  lemma CongTrans(a: int, b: int, c: int)
    requires Cong(a, b) && Cong(b, c)
    ensures Cong(a, c)
  {
    var q :| a - b == Multiple(q);
    var r :| b - c == Multiple(r);
    assert a - c == Multiple(q + r);
  }

  lemma CongAdd(a: int, b: int, c: int, d: int)
    requires Cong(a, b) && Cong(c, d)
    ensures Cong(a + c, b + d)
  {
    var q :| a - b == Multiple(q);
    var r :| c - d == Multiple(r);
    assert (a + c) - (b + d) == Multiple(q + r);
  }

  lemma CongScale(a: int, b: int, c: int)
    requires Cong(a, b)
    ensures Cong(a * c, b * c)
  {
    var q :| a - b == Multiple(q);
    assert a * c - b * c == (a - b) * c == P * q * c == P * (q * c);
    assert a * c - b * c == Multiple(q * c);
  }

  lemma CongMul(a: int, b: int, c: int, d: int)
    requires Cong(a, b) && Cong(c, d)
    ensures Cong(a * c, b * d)
  {
    CongScale(a, b, c);
    CongScale(c, d, b);
    CongTrans(a * c, b * c, b * d);
  }

  lemma CongMod(a: nat, b: nat)
    ensures Cong(a, b) <==> a % P == b % P
  {
    if a % P == b % P {
      assert a - b == Multiple(a / P - b / P);
    }
    if Cong(a, b) {
      var q :| a - b == Multiple(q);
      assert a == P * (b / P + q) + b % P;
    }
  }

  // ----- the MAC's iteration -----

  // a = (a + m) * r mod P for each block: the standard's loop.
  function Iterate(h: nat, r: nat, ms: seq<nat>): nat {
    if ms == [] then h else (Iterate(h, r, ms[..|ms| - 1]) + ms[|ms| - 1]) * r % P
  }

  // The same without the reductions.
  function Horner(h: nat, r: nat, ms: seq<nat>): nat {
    if ms == [] then h else (Horner(h, r, ms[..|ms| - 1]) + ms[|ms| - 1]) * r
  }

  // m_1 r^n + m_2 r^(n-1) + ... + m_n r
  function PowerSum(r: nat, ms: seq<nat>): nat {
    if ms == [] then 0 else ms[0] * Pow(r, |ms|) + PowerSum(r, ms[1..])
  }

  lemma {:induction false} IterateIsHorner(h: nat, r: nat, ms: seq<nat>)
    ensures Cong(Iterate(h, r, ms), Horner(h, r, ms))
  {
    if ms == [] {
      CongRefl(h);
    } else {
      var front, m := ms[..|ms| - 1], ms[|ms| - 1];
      IterateIsHorner(h, r, front);
      var a, b := Iterate(h, r, front), Horner(h, r, front);
      IterateStep(a, b, m, r);
    }
  }

  lemma IterateStep(a: nat, b: nat, m: nat, r: nat)
    requires Cong(a, b)
    ensures Cong((a + m) * r % P, (b + m) * r)
  {
    hide Cong;
    CongRefl(m);
    CongAdd(a, b, m, m);
    CongScale(a + m, b + m, r);
    var x := (a + m) * r;
    CongMod(x % P, x);
    CongTrans(x % P, x, (b + m) * r);
  }

  // The closed form: h r^n + m_1 r^n + m_2 r^(n-1) + ... + m_n r.
  lemma {:induction false} HornerIsPowerSum(h: nat, r: nat, ms: seq<nat>)
    ensures Horner(h, r, ms) == h * Pow(r, |ms|) + PowerSum(r, ms)
  {
    hide Pow, PowerSum;
    if ms == [] {
      NoPowers(r);
    } else {
      var front, m := ms[..|ms| - 1], ms[|ms| - 1];
      HornerIsPowerSum(h, r, front);
      assert ms == front + [m];
      PowerSumAppend(r, front, m);
      PowTimes(r, |front|);
      DistributeStep(h, Pow(r, |front|), PowerSum(r, front), m, r);
    }
  }

  lemma DistributeStep(h: nat, p: nat, s: nat, m: nat, r: nat)
    ensures (h * p + s + m) * r == h * (p * r) + (s * r + m * r)
  {
    Reassociate(h, p, r);
    Distribute(h * p, s, m, r);
  }

  lemma Distribute(a: int, b: int, c: int, r: int)
    ensures (a + b + c) * r == a * r + b * r + c * r
  {
  }

  lemma PowTimes(r: nat, n: nat)
    ensures Pow(r, n + 1) == Pow(r, n) * r
  {
  }

  lemma NoPowers(r: nat)
    ensures Pow(r, 0) == 1 && Pow(r, 1) == r && PowerSum(r, []) == 0
  {
  }

  lemma {:induction false} PowerSumAppend(r: nat, ms: seq<nat>, m: nat)
    ensures PowerSum(r, ms + [m]) == PowerSum(r, ms) * r + m * r
  {
    hide Pow;
    NoPowers(r);
    if ms == [] {
      assert ms + [m] == [m] && [m][1..] == [];
    } else {
      PowerSumAppend(r, ms[1..], m);
      assert (ms + [m])[1..] == ms[1..] + [m];
      PowTimes(r, |ms|);
      TwoTerms(ms[0], Pow(r, |ms|), PowerSum(r, ms[1..]), r);
    }
  }

  lemma TwoTerms(x: nat, p: nat, s: nat, r: nat)
    ensures x * (p * r) + s * r == (x * p + s) * r
  {
    Reassociate(x, p, r);
    Distribute(x * p, s, 0, r);
  }

  // ----- limbs -----

  datatype Limbs = Limbs(l0: nat, l1: nat, l2: nat, l3: nat, l4: nat)

  function Val(x: Limbs): nat {
    x.l0 + TWO_26 * x.l1 + TWO_52 * x.l2 + TWO_78 * x.l3 + TWO_104 * x.l4
  }

  ghost predicate Below(x: Limbs, bound: nat) {
    x.l0 < bound && x.l1 < bound && x.l2 < bound && x.l3 < bound && x.l4 < bound
  }

  // One limb times all five.
  ghost function Row(a: Limbs, y: nat): Limbs {
    Limbs(a.l0 * y, a.l1 * y, a.l2 * y, a.l3 * y, a.l4 * y)
  }

  // The columns of the schoolbook product, with 2^130 counted as 5.
  ghost function Fold(r0: Limbs, r1: Limbs, r2: Limbs, r3: Limbs, r4: Limbs): Limbs {
    Limbs(r0.l0 + 5 * r4.l1 + 5 * r3.l2 + 5 * r2.l3 + 5 * r1.l4,
          r1.l0 + r0.l1 + 5 * r4.l2 + 5 * r3.l3 + 5 * r2.l4,
          r2.l0 + r1.l1 + r0.l2 + 5 * r4.l3 + 5 * r3.l4,
          r3.l0 + r2.l1 + r1.l2 + r0.l3 + 5 * r4.l4,
          r4.l0 + r3.l1 + r2.l2 + r1.l3 + r0.l4)
  }

  ghost function Columns(a: Limbs, b: Limbs): Limbs {
    Fold(Row(a, b.l0), Row(a, b.l1), Row(a, b.l2), Row(a, b.l3), Row(a, b.l4))
  }

  lemma RowValue(a: Limbs, y: nat)
    ensures Val(Row(a, y)) == Val(a) * y
  {
    Distribute5(a.l0, TWO_26 * a.l1, TWO_52 * a.l2, TWO_78 * a.l3, TWO_104 * a.l4, y);
    Reassociate(TWO_26, a.l1, y);
    Reassociate(TWO_52, a.l2, y);
    Reassociate(TWO_78, a.l3, y);
    Reassociate(TWO_104, a.l4, y);
  }

  lemma Distribute5(a: int, b: int, c: int, d: int, e: int, y: int)
    ensures (a + b + c + d + e) * y == a * y + b * y + c * y + d * y + e * y
  {
  }

  lemma TimesVal(x: nat, b: Limbs)
    ensures x * Val(b) == x * b.l0 + TWO_26 * (x * b.l1) + TWO_52 * (x * b.l2) + TWO_78 * (x * b.l3) + TWO_104 * (x * b.l4)
  {
    RowValue(b, x);
  }

  lemma FoldValue(r0: Limbs, r1: Limbs, r2: Limbs, r3: Limbs, r4: Limbs)
    ensures Cong(Val(Fold(r0, r1, r2, r3, r4)),
                 Val(r0) + TWO_26 * Val(r1) + TWO_52 * Val(r2) + TWO_78 * Val(r3) + TWO_104 * Val(r4))
  {
    var k0 := r4.l1 + r3.l2 + r2.l3 + r1.l4;
    var k1 := r4.l2 + r3.l3 + r2.l4;
    var k2 := r4.l3 + r3.l4;
    var k := k0 + TWO_26 * k1 + TWO_52 * k2 + TWO_78 * r4.l4;
    assert Val(Fold(r0, r1, r2, r3, r4)) -
      (Val(r0) + TWO_26 * Val(r1) + TWO_52 * Val(r2) + TWO_78 * Val(r3) + TWO_104 * Val(r4)) == Multiple(-k);
  }

  // The product of the values is the value of the columns, modulo P.
  lemma ColumnsValue(a: Limbs, b: Limbs)
    ensures Cong(Val(Columns(a, b)), Val(a) * Val(b))
  {
    hide Val, Cong, Row, Fold;
    TimesVal(Val(a), b);
    RowValue(a, b.l0); RowValue(a, b.l1); RowValue(a, b.l2); RowValue(a, b.l3); RowValue(a, b.l4);
    FoldValue(Row(a, b.l0), Row(a, b.l1), Row(a, b.l2), Row(a, b.l3), Row(a, b.l4));
  }

  // ----- machine words -----

  function Add64(a: nat, b: nat): nat { (a + b) % TWO_64 }
  function Mul64(a: nat, b: nat): nat { a * b % TWO_64 }
  function Word(a: nat): nat { a % TWO_32 }

  // _mm256_mul_epu32 on one lane: the low words, multiplied to 64 bits.
  function MulEpu32(a: nat, b: nat): nat { Word(a) * Word(b) }

  lemma ProductBound(a: nat, b: nat)
    requires a < TWO_28 && b < 0x4000_0000
    ensures a * b < 0x400_0000_0000_0000
    ensures Mul64(a, b) == a * b && MulEpu32(a, b) == a * b
  {
    MulMonotonic(a, TWO_28, b, b);
    SmallProduct(a * b);
    SmallWord(a);
    SmallWord(b);
  }

  lemma SmallProduct(x: nat)
    requires x < TWO_64
    ensures x % TWO_64 == x
  {
  }

  lemma SmallWord(x: nat)
    requires x < TWO_32
    ensures Word(x) == x
  {
  }

  const ROOM: nat := 0x400_0000_0000_0000

  // Five products added, in the scalar code's order and in the vector code's.
  function Sum5(a: nat, b: nat, c: nat, d: nat, e: nat): nat {
    Add64(Add64(Add64(Add64(a, b), c), d), e)
  }

  function Sum5Lanes(a: nat, b: nat, c: nat, d: nat, e: nat): nat {
    Add64(Add64(a, b), Add64(Add64(c, d), e))
  }

  lemma Sum5Exact(a: nat, b: nat, c: nat, d: nat, e: nat)
    requires a < ROOM && b < ROOM && c < ROOM && d < ROOM && e < ROOM
    ensures Sum5(a, b, c, d, e) == a + b + c + d + e
    ensures Sum5Lanes(a, b, c, d, e) == a + b + c + d + e
  {
    Add64Exact(a, b);
    Add64Exact(a + b, c);
    Add64Exact(a + b + c, d);
    Add64Exact(a + b + c + d, e);
    Add64Exact(c, d);
    Add64Exact(c + d, e);
    Add64Exact(a + b, c + d + e);
  }

  lemma Add64Exact(a: nat, b: nat)
    requires a + b < TWO_64
    ensures Add64(a, b) == a + b
  {
  }

  // ----- the scalar product -----

  // a carries into b: the low 26 bits stay.
  function Kept(a: nat): nat { a % TWO_26 }
  function Carry(a: nat): nat { a / TWO_26 }

  // A column below 2^63 carried into one below 2^62 and a bit.
  lemma CarryStep(a: nat, b: nat)
    requires a < 0x8000_0000_0000_0000 && b < 0x5000_0000_0000_0000
    ensures a == Kept(a) + TWO_26 * Carry(a) && Kept(a) < TWO_26 && Carry(a) < 0x20_0000_0000
    ensures Add64(b, Carry(a)) == b + Carry(a)
    ensures Mul64(Carry(a), 5) == 5 * Carry(a) && Add64(b, Mul64(Carry(a), 5)) == b + 5 * Carry(a)
  {
  }

  // A carry out of a nearly empty column is small.
  lemma SmallCarry(a: nat)
    requires a < 0x200_0000_0000
    ensures Carry(a) < 0x1_0000
  {
  }

  lemma Words(d: Limbs)
    requires Below(d, TWO_32)
    ensures Limbs(Word(d.l0), Word(d.l1), Word(d.l2), Word(d.l3), Word(d.l4)) == d
  {
  }

  // Columns below 2^62 carried into limbs: d0 to d4, d4 round to d0, and d0 once more.
  method CarryChain(d: Limbs) returns (o: Limbs)
    requires Below(d, 0x4000_0000_0000_0000)
    ensures Cong(Val(o), Val(d))
    ensures o.l0 < TWO_26 && o.l1 < TWO_27 && o.l2 < TWO_26 && o.l3 < TWO_26 && o.l4 < TWO_26
  {
    hide Kept, Carry, Add64, Mul64, Word;
    var d0, d1, d2, d3, d4 := d.l0, d.l1, d.l2, d.l3, d.l4;
    CarryStep(d0, d1);
    var c := Carry(d0); d0 := Kept(d0); d1 := Add64(d1, c);
    CarryStep(d1, d2);
    c := Carry(d1); d1 := Kept(d1); d2 := Add64(d2, c);
    CarryStep(d2, d3);
    c := Carry(d2); d2 := Kept(d2); d3 := Add64(d3, c);
    CarryStep(d3, d4);
    c := Carry(d3); d3 := Kept(d3); d4 := Add64(d4, c);
    CarryStep(d4, d0);
    c := Carry(d4); d4 := Kept(d4); d0 := Add64(d0, Mul64(c, 5));
    ghost var top: int := c;
    CarryStep(d0, d1);
    SmallCarry(d0);
    c := Carry(d0); d0 := Kept(d0); d1 := Add64(d1, c);
    Words(Limbs(d0, d1, d2, d3, d4));
    o := Limbs(Word(d0), Word(d1), Word(d2), Word(d3), Word(d4));
    assert Val(o) - Val(d) == Multiple(-top);
  }

  // p26_mul
  method P26Mul(a: Limbs, b: Limbs) returns (o: Limbs)
    requires Below(a, TWO_27) && Below(b, TWO_27)
    ensures Cong(Val(o), Val(a) * Val(b))
    ensures Below(o, TWO_27)
  {
    hide Val, Cong, Sum5, Mul64;
    var s1, s2, s3, s4 := Mul64(b.l1, 5), Mul64(b.l2, 5), Mul64(b.l3, 5), Mul64(b.l4, 5);
    var d0 := Sum5(Mul64(a.l0, b.l0), Mul64(a.l1, s4), Mul64(a.l2, s3), Mul64(a.l3, s2), Mul64(a.l4, s1));
    var d1 := Sum5(Mul64(a.l0, b.l1), Mul64(a.l1, b.l0), Mul64(a.l2, s4), Mul64(a.l3, s3), Mul64(a.l4, s2));
    var d2 := Sum5(Mul64(a.l0, b.l2), Mul64(a.l1, b.l1), Mul64(a.l2, b.l0), Mul64(a.l3, s4), Mul64(a.l4, s3));
    var d3 := Sum5(Mul64(a.l0, b.l3), Mul64(a.l1, b.l2), Mul64(a.l2, b.l1), Mul64(a.l3, b.l0), Mul64(a.l4, s4));
    var d4 := Sum5(Mul64(a.l0, b.l4), Mul64(a.l1, b.l3), Mul64(a.l2, b.l2), Mul64(a.l3, b.l1), Mul64(a.l4, b.l0));
    ExactColumns(a, b, s1, s2, s3, s4);
    ColumnsValue(a, b);
    o := CarryChain(Limbs(d0, d1, d2, d3, d4));
    CongTrans(Val(o), Val(Columns(a, b)), Val(a) * Val(b));
  }

  // No product and no sum overflows, so the words are the columns.
  lemma ExactColumns(a: Limbs, b: Limbs, s1: nat, s2: nat, s3: nat, s4: nat)
    requires Below(a, TWO_28) && Below(b, TWO_27)
    requires s1 == Mul64(b.l1, 5) && s2 == Mul64(b.l2, 5) && s3 == Mul64(b.l3, 5) && s4 == Mul64(b.l4, 5)
    ensures Columns(a, b) == Limbs(
      Sum5(Mul64(a.l0, b.l0), Mul64(a.l1, s4), Mul64(a.l2, s3), Mul64(a.l3, s2), Mul64(a.l4, s1)),
      Sum5(Mul64(a.l0, b.l1), Mul64(a.l1, b.l0), Mul64(a.l2, s4), Mul64(a.l3, s3), Mul64(a.l4, s2)),
      Sum5(Mul64(a.l0, b.l2), Mul64(a.l1, b.l1), Mul64(a.l2, b.l0), Mul64(a.l3, s4), Mul64(a.l4, s3)),
      Sum5(Mul64(a.l0, b.l3), Mul64(a.l1, b.l2), Mul64(a.l2, b.l1), Mul64(a.l3, b.l0), Mul64(a.l4, s4)),
      Sum5(Mul64(a.l0, b.l4), Mul64(a.l1, b.l3), Mul64(a.l2, b.l2), Mul64(a.l3, b.l1), Mul64(a.l4, b.l0)))
    ensures Columns(a, b) == Limbs(
      Sum5Lanes(MulEpu32(a.l0, b.l0), MulEpu32(a.l1, s4), MulEpu32(a.l2, s3), MulEpu32(a.l3, s2), MulEpu32(a.l4, s1)),
      Sum5Lanes(MulEpu32(a.l0, b.l1), MulEpu32(a.l1, b.l0), MulEpu32(a.l2, s4), MulEpu32(a.l3, s3), MulEpu32(a.l4, s2)),
      Sum5Lanes(MulEpu32(a.l0, b.l2), MulEpu32(a.l1, b.l1), MulEpu32(a.l2, b.l0), MulEpu32(a.l3, s4), MulEpu32(a.l4, s3)),
      Sum5Lanes(MulEpu32(a.l0, b.l3), MulEpu32(a.l1, b.l2), MulEpu32(a.l2, b.l1), MulEpu32(a.l3, b.l0), MulEpu32(a.l4, s4)),
      Sum5Lanes(MulEpu32(a.l0, b.l4), MulEpu32(a.l1, b.l3), MulEpu32(a.l2, b.l2), MulEpu32(a.l3, b.l1), MulEpu32(a.l4, b.l0)))
    ensures Below(Columns(a, b), 0x4000_0000_0000_0000)
  {
    hide Mul64, MulEpu32, Sum5, Sum5Lanes;
    Product(a.l0, b.l0); Product(a.l0, b.l1); Product(a.l0, b.l2); Product(a.l0, b.l3); Product(a.l0, b.l4);
    Product(a.l1, b.l0); Product(a.l1, b.l1); Product(a.l1, b.l2); Product(a.l1, b.l3); Product(a.l1, b.l4);
    Product(a.l2, b.l0); Product(a.l2, b.l1); Product(a.l2, b.l2); Product(a.l2, b.l3); Product(a.l2, b.l4);
    Product(a.l3, b.l0); Product(a.l3, b.l1); Product(a.l3, b.l2); Product(a.l3, b.l3); Product(a.l3, b.l4);
    Product(a.l4, b.l0); Product(a.l4, b.l1); Product(a.l4, b.l2); Product(a.l4, b.l3); Product(a.l4, b.l4);
    Sum5Exact(Mul64(a.l0, b.l0), Mul64(a.l1, s4), Mul64(a.l2, s3), Mul64(a.l3, s2), Mul64(a.l4, s1));
    Sum5Exact(Mul64(a.l0, b.l1), Mul64(a.l1, b.l0), Mul64(a.l2, s4), Mul64(a.l3, s3), Mul64(a.l4, s2));
    Sum5Exact(Mul64(a.l0, b.l2), Mul64(a.l1, b.l1), Mul64(a.l2, b.l0), Mul64(a.l3, s4), Mul64(a.l4, s3));
    Sum5Exact(Mul64(a.l0, b.l3), Mul64(a.l1, b.l2), Mul64(a.l2, b.l1), Mul64(a.l3, b.l0), Mul64(a.l4, s4));
    Sum5Exact(Mul64(a.l0, b.l4), Mul64(a.l1, b.l3), Mul64(a.l2, b.l2), Mul64(a.l3, b.l1), Mul64(a.l4, b.l0));
  }

  // A limb of the accumulator times a limb of the key, or five times it.
  lemma Product(x: nat, y: nat)
    requires x < TWO_28 && y < TWO_27
    ensures Mul64(x, y) == MulEpu32(x, y) == x * y < ROOM
    ensures Mul64(y, 5) == 5 * y
    ensures Mul64(x, 5 * y) == MulEpu32(x, 5 * y) == 5 * (x * y) < ROOM
  {
    ProductBound(x, y);
    ProductBound(x, 5 * y);
    assert x * (5 * y) == 5 * (x * y);
  }

  // ----- the product in every lane -----

  // The last carry of the lane product: five times, by an addition and a shift.
  function FiveTimes(c: nat): nat { Add64(c, c * 4 % TWO_64) }

  lemma FiveTimesExact(c: nat, d: nat)
    requires c < 0x20_0000_0000 && d < 0x5000_0000_0000_0000
    ensures Add64(d, FiveTimes(c)) == d + 5 * c
  {
  }

  // PMUL on one lane: h = h * r, with s = 5 * r, and one pass of carries.
  method PMulLane(h: Limbs, r: Limbs, s: Limbs) returns (o: Limbs)
    requires Below(h, TWO_28) && Below(r, TWO_27)
    requires s.l1 == Mul64(r.l1, 5) && s.l2 == Mul64(r.l2, 5) && s.l3 == Mul64(r.l3, 5) && s.l4 == Mul64(r.l4, 5)
    ensures Cong(Val(o), Val(h) * Val(r))
    ensures Below(o, TWO_27)
  {
    hide Val, Cong, Sum5Lanes, MulEpu32, Mul64;
    var d0 := Sum5Lanes(MulEpu32(h.l0, r.l0), MulEpu32(h.l1, s.l4), MulEpu32(h.l2, s.l3), MulEpu32(h.l3, s.l2), MulEpu32(h.l4, s.l1));
    var d1 := Sum5Lanes(MulEpu32(h.l0, r.l1), MulEpu32(h.l1, r.l0), MulEpu32(h.l2, s.l4), MulEpu32(h.l3, s.l3), MulEpu32(h.l4, s.l2));
    var d2 := Sum5Lanes(MulEpu32(h.l0, r.l2), MulEpu32(h.l1, r.l1), MulEpu32(h.l2, r.l0), MulEpu32(h.l3, s.l4), MulEpu32(h.l4, s.l3));
    var d3 := Sum5Lanes(MulEpu32(h.l0, r.l3), MulEpu32(h.l1, r.l2), MulEpu32(h.l2, r.l1), MulEpu32(h.l3, r.l0), MulEpu32(h.l4, s.l4));
    var d4 := Sum5Lanes(MulEpu32(h.l0, r.l4), MulEpu32(h.l1, r.l3), MulEpu32(h.l2, r.l2), MulEpu32(h.l3, r.l1), MulEpu32(h.l4, r.l0));
    ExactColumns(h, r, s.l1, s.l2, s.l3, s.l4);
    ColumnsValue(h, r);
    o := LaneCarries(Limbs(d0, d1, d2, d3, d4));
    CongTrans(Val(o), Val(Columns(h, r)), Val(h) * Val(r));
  }

  method LaneCarries(d: Limbs) returns (o: Limbs)
    requires Below(d, 0x4000_0000_0000_0000)
    ensures Cong(Val(o), Val(d))
    ensures Below(o, TWO_27)
  {
    hide Kept, Carry, Add64, Mul64, FiveTimes;
    var d0, d1, d2, d3, d4 := d.l0, d.l1, d.l2, d.l3, d.l4;
    CarryStep(d0, d1);
    var c := Carry(d0); d0 := Kept(d0); d1 := Add64(d1, c);
    CarryStep(d3, d4);
    c := Carry(d3); d3 := Kept(d3); d4 := Add64(d4, c);
    CarryStep(d1, d2);
    c := Carry(d1); d1 := Kept(d1); d2 := Add64(d2, c);
    CarryStep(d4, d0);
    c := Carry(d4); d4 := Kept(d4);
    FiveTimesExact(c, d0);
    ghost var top: int := c;
    d0 := Add64(d0, FiveTimes(c));
    CarryStep(d2, d3);
    c := Carry(d2); d2 := Kept(d2); d3 := Add64(d3, c);
    CarryStep(d0, d1);
    SmallCarry(d0);
    c := Carry(d0); d0 := Kept(d0); d1 := Add64(d1, c);
    CarryStep(d3, d4);
    SmallCarry(d3);
    c := Carry(d3); d3 := Kept(d3); d4 := Add64(d4, c);
    o := Limbs(d0, d1, d2, d3, d4);
    assert Val(o) - Val(d) == Multiple(-top);
  }

  // ----- loading four blocks -----

  // Four 64-bit lanes.
  function Load256(m: seq<Byte>): (v: seq<nat>)
    requires |m| == 32
    ensures |v| == 4
  {
    [LittleEndian(m[..8]), LittleEndian(m[8..16]), LittleEndian(m[16..24]), LittleEndian(m[24..])]
  }

  // _mm256_unpacklo_epi64 and _mm256_unpackhi_epi64: within each 128-bit half.
  function UnpackLo(a: seq<nat>, b: seq<nat>): seq<nat>
    requires |a| == 4 && |b| == 4
  {
    [a[0], b[0], a[2], b[2]]
  }

  function UnpackHi(a: seq<nat>, b: seq<nat>): seq<nat>
    requires |a| == 4 && |b| == 4
  {
    [a[1], b[1], a[3], b[3]]
  }

  // The five limbs of a block from its two halves, with the 2^128 bit.
  function BlockLimbs(lo: nat, hi: nat): Limbs {
    Limbs(lo % TWO_26,
          lo / TWO_26 % TWO_26,
          Or(lo / TWO_52, hi * 0x1000 % TWO_64) % TWO_26,
          hi / 0x4000 % TWO_26,
          Or(hi / 0x100_0000_0000, 0x100_0000))
  }

  lemma BlockLimbsValue(lo: nat, hi: nat)
    requires lo < TWO_64 && hi < TWO_64
    ensures Val(BlockLimbs(lo, hi)) == lo + TWO_64 * hi + TWO_128
    ensures Below(BlockLimbs(lo, hi), TWO_26)
  {
    hide Or, Val;
    MidLimb(lo / TWO_52, hi);
    TopLimb(hi / 0x100_0000_0000);
    LimbsSum(lo, hi);
  }

  lemma MidLimb(low: nat, hi: nat)
    requires low < 0x1000 && hi < TWO_64
    ensures Or(low, hi * 0x1000 % TWO_64) % TWO_26 == low + 0x1000 * (hi % 0x4000)
  {
    hide Or;
    var h := hi % TWO_52;
    UpTwelve(hi);
    Pow2Add(8, 4);
    Pow2Small();
    assert Pow2(4) == 16;
    OrDisjoint(12, low, h);
    ShlIsTimesPow2(12, h);
    CutMid(low, h);
  }

  // A shift by twelve keeps the low 52 bits, and the limb keeps fourteen of them.
  lemma UpTwelve(hi: nat)
    requires hi < TWO_64
    ensures hi * 0x1000 % TWO_64 == 0x1000 * (hi % TWO_52)
    ensures hi % TWO_52 % 0x4000 == hi % 0x4000
  {
    var q, h := hi / TWO_52, hi % TWO_52;
    Quotient(hi * 0x1000, TWO_64, q, 0x1000 * h);
    Quotient(hi, 0x4000, 0x40_0000_0000 * q + h / 0x4000, h % 0x4000);
  }

  lemma CutMid(low: nat, h: nat)
    requires low < 0x1000
    ensures (low + 0x1000 * h) % TWO_26 == low + 0x1000 * (h % 0x4000)
  {
    Quotient(low + 0x1000 * h, TWO_26, h / 0x4000, low + 0x1000 * (h % 0x4000));
  }

  lemma TopLimb(low: nat)
    requires low < 0x100_0000
    ensures Or(low, 0x100_0000) == low + 0x100_0000
  {
    hide Or;
    Pow2Add(16, 8);
    Pow2Values();
    OrDisjoint(24, low, 1);
    ShlIsTimesPow2(24, 1);
  }

  lemma LimbsSum(lo: nat, hi: nat)
    requires lo < TWO_64 && hi < TWO_64
    ensures Val(Limbs(lo % TWO_26, lo / TWO_26 % TWO_26, lo / TWO_52 + 0x1000 * (hi % 0x4000), hi / 0x4000 % TWO_26,
                      hi / 0x100_0000_0000 + 0x100_0000)) == lo + TWO_64 * hi + TWO_128
  {
    var a := lo / TWO_26;
    Quotient(lo, TWO_52, a / TWO_26, lo % TWO_26 + TWO_26 * (a % TWO_26));
    var b := hi / 0x4000;
    Quotient(hi, 0x100_0000_0000, b / TWO_26, hi % 0x4000 + 0x4000 * (b % TWO_26));
  }

  // The 64 bytes of four blocks, in lanes 0, 2, 1, 3.
  function MessageLanes(m: seq<Byte>): (v: seq<Limbs>)
    requires |m| == 64
    ensures |v| == 4
  {
    var a, b := Load256(m[..32]), Load256(m[32..]);
    var lo, hi := UnpackLo(a, b), UnpackHi(a, b);
    [BlockLimbs(lo[0], hi[0]), BlockLimbs(lo[1], hi[1]), BlockLimbs(lo[2], hi[2]), BlockLimbs(lo[3], hi[3])]
  }

  // A block as the standard reads it.
  function BlockNumber(b: seq<Byte>): nat
    requires |b| == 16
  {
    LittleEndian(b) + TWO_128
  }

  function Messages(m: seq<Byte>): (ms: seq<nat>)
    requires |m| % 16 == 0
    ensures |ms| == |m| / 16
  {
    seq(|m| / 16, i requires 0 <= i < |m| / 16 => BlockNumber(m[16 * i..16 * i + 16]))
  }

  lemma BlockHalves(b: seq<Byte>)
    requires |b| == 16
    ensures BlockNumber(b) == Val(BlockLimbs(LittleEndian(b[..8]), LittleEndian(b[8..])))
    ensures Below(BlockLimbs(LittleEndian(b[..8]), LittleEndian(b[8..])), TWO_26)
  {
    hide LittleEndian, BlockLimbs, Val, Shl;
    assert b == b[..8] + b[8..];
    LittleEndianConcat(b[..8], b[8..]);
    ShlIsTimesPow2(64, LittleEndian(b[8..]));
    Pow2Values();
    BlockLimbsValue(LittleEndian(b[..8]), LittleEndian(b[8..]));
  }

  // Lane j holds block 0, 2, 1, 3.
  lemma LaneOrder(m: seq<Byte>)
    requires |m| == 64
    ensures var v := MessageLanes(m);
            Val(v[0]) == BlockNumber(m[..16]) && Val(v[2]) == BlockNumber(m[16..32]) &&
            Val(v[1]) == BlockNumber(m[32..48]) && Val(v[3]) == BlockNumber(m[48..]) &&
            forall j :: 0 <= j < 4 ==> Below(v[j], TWO_26)
  {
    hide LittleEndian, BlockLimbs, Val, BlockNumber;
    BlockHalves(m[..16]); BlockHalves(m[16..32]); BlockHalves(m[32..48]); BlockHalves(m[48..]);
    assert m[..32][..8] == m[..16][..8] && m[..32][8..16] == m[..16][8..];
    assert m[..32][16..24] == m[16..32][..8] && m[..32][24..] == m[16..32][8..];
    assert m[32..][..8] == m[32..48][..8] && m[32..][8..16] == m[32..48][8..];
    assert m[32..][16..24] == m[48..][..8] && m[32..][24..] == m[48..][8..];
  }

  // ----- the four accumulators -----

  ghost function Square(r: int): int { r * r }
  ghost function Cube(r: int): int { r * r * r }
  ghost function Fourth(r: int): int { Square(r) * Square(r) }

  // What four lanes contribute with the powers that their blocks need: r^4, r^2, r^3, r.
  ghost function Weighted(v0: int, v1: int, v2: int, v3: int, r: int): int {
    v0 * Fourth(r) + v1 * Square(r) + v2 * Cube(r) + v3 * r
  }

  ghost function WeightedLanes(a: seq<Limbs>, r: int): int
    requires |a| == 4
  {
    Weighted(Val(a[0]), Val(a[1]), Val(a[2]), Val(a[3]), r)
  }

  ghost predicate AllBelow(a: seq<Limbs>, bound: nat) {
    |a| == 4 && forall j :: 0 <= j < 4 ==> Below(a[j], bound)
  }

  // _mm256_add_epi64 of the limbs of the message in one lane.
  function AddLimbs(a: Limbs, m: Limbs): Limbs {
    Limbs(Add64(a.l0, m.l0), Add64(a.l1, m.l1), Add64(a.l2, m.l2), Add64(a.l3, m.l3), Add64(a.l4, m.l4))
  }

  lemma AddLimbsValue(a: Limbs, m: Limbs)
    requires Below(a, TWO_27) && Below(m, TWO_26)
    ensures Below(AddLimbs(a, m), TWO_28) && Val(AddLimbs(a, m)) == Val(a) + Val(m)
  {
    hide Add64;
    Add64Exact(a.l0, m.l0); Add64Exact(a.l1, m.l1); Add64Exact(a.l2, m.l2); Add64Exact(a.l3, m.l3); Add64Exact(a.l4, m.l4);
  }

  // The bound 2^27 is passed when a full limb of a block is added to one just below it.
  lemma LimbPassesTwo27()
    ensures var h, m := Limbs(TWO_27 - 1, 0, 0, 0, 0), BlockLimbs(TWO_26 - 1, 0);
            Below(h, TWO_27) && AddLimbs(h, m).l0 == TWO_27 + TWO_26 - 2
  {
    hide Or;
  }

  lemma WeightedAdd(a0: int, a1: int, a2: int, a3: int, b0: int, b1: int, b2: int, b3: int, r: int)
    ensures Weighted(a0 + b0, a1 + b1, a2 + b2, a3 + b3, r) == Weighted(a0, a1, a2, a3, r) + Weighted(b0, b1, b2, b3, r)
  {
    hide Fourth, Square, Cube;
    assert (a0 + b0) * Fourth(r) == a0 * Fourth(r) + b0 * Fourth(r);
    assert (a1 + b1) * Square(r) == a1 * Square(r) + b1 * Square(r);
    assert (a2 + b2) * Cube(r) == a2 * Cube(r) + b2 * Cube(r);
  }

  lemma WeightedScale(a0: int, a1: int, a2: int, a3: int, r: int, f: int)
    ensures Weighted(a0 * f, a1 * f, a2 * f, a3 * f, r) == Weighted(a0, a1, a2, a3, r) * f
  {
    hide Fourth, Square, Cube;
    ScaleTerm(a0, Fourth(r), f); ScaleTerm(a1, Square(r), f); ScaleTerm(a2, Cube(r), f); ScaleTerm(a3, r, f);
    var p, q, s, t := a0 * Fourth(r), a1 * Square(r), a2 * Cube(r), a3 * r;
    assert (p + q + s + t) * f == p * f + q * f + s * f + t * f;
  }

  lemma ScaleTerm(a: int, w: int, f: int)
    ensures a * f * w == a * w * f
  {
  }

  lemma WeightedCong(a0: int, a1: int, a2: int, a3: int, b0: int, b1: int, b2: int, b3: int, r: int)
    requires Cong(a0, b0) && Cong(a1, b1) && Cong(a2, b2) && Cong(a3, b3)
    ensures Cong(Weighted(a0, a1, a2, a3, r), Weighted(b0, b1, b2, b3, r))
  {
    hide Cong, Fourth, Square, Cube;
    CongScale(a0, b0, Fourth(r));
    CongScale(a1, b1, Square(r));
    CongScale(a2, b2, Cube(r));
    CongScale(a3, b3, r);
    CongAdd(a0 * Fourth(r), b0 * Fourth(r), a1 * Square(r), b1 * Square(r));
    CongAdd(a0 * Fourth(r) + a1 * Square(r), b0 * Fourth(r) + b1 * Square(r), a2 * Cube(r), b2 * Cube(r));
    CongAdd(a0 * Fourth(r) + a1 * Square(r) + a2 * Cube(r), b0 * Fourth(r) + b1 * Square(r) + b2 * Cube(r), a3 * r, b3 * r);
  }

  // Four blocks of the standard's loop; the blocks sit in lanes 0, 2, 1, 3.
  lemma FourBlocks(h: int, r: int, m0: int, m1: int, m2: int, m3: int)
    ensures ((((h + m0) * r + m1) * r + m2) * r + m3) * r == h * Fourth(r) + Weighted(m0, m2, m1, m3, r)
  {
    hide Square, Cube, Fourth;
    var h1 := h + m0;
    TwoBlocks(h1, m1, r);
    TwoBlocks(h1 * Square(r) + m1 * r + m2, m3, r);
    SpreadSquare(h1, m1, m2, r);
    assert h1 * Fourth(r) == h * Fourth(r) + m0 * Fourth(r);
  }

  lemma TwoBlocks(x: int, y: int, r: int)
    ensures (x * r + y) * r == x * Square(r) + y * r
  {
    assert (x * r + y) * r == (x * r) * r + y * r;
    assert (x * r) * r == x * (r * r);
  }

  lemma CubeIs(r: int)
    ensures Cube(r) == r * Square(r)
  {
  }

  lemma SpreadSquare(h1: int, m1: int, m2: int, r: int)
    ensures (h1 * Square(r) + m1 * r + m2) * Square(r) == h1 * Fourth(r) + m1 * Cube(r) + m2 * Square(r)
  {
    hide Square, Cube;
    CubeIs(r);
    var s := Square(r);
    assert (h1 * s + m1 * r + m2) * s == (h1 * s) * s + (m1 * r) * s + m2 * s;
    assert (h1 * s) * s == h1 * (s * s);
    assert (m1 * r) * s == m1 * (r * s);
  }

  // ----- the powers of the key -----

  function Five(f: Limbs): Limbs {
    Limbs(Mul64(f.l0, 5), Mul64(f.l1, 5), Mul64(f.l2, 5), Mul64(f.l3, 5), Mul64(f.l4, 5))
  }

  // The final multipliers are five times by an addition and a shift.
  function FiveByShift(f: Limbs): Limbs {
    Limbs(FiveTimes(f.l0), FiveTimes(f.l1), FiveTimes(f.l2), FiveTimes(f.l3), FiveTimes(f.l4))
  }

  lemma FiveEitherWay(f: Limbs)
    requires Below(f, TWO_27)
    ensures FiveByShift(f) == Five(f)
  {
    hide FiveTimes, Mul64;
    FiveSame(f.l0); FiveSame(f.l1); FiveSame(f.l2); FiveSame(f.l3); FiveSame(f.l4);
  }

  lemma FiveSame(x: nat)
    requires x < TWO_27
    ensures FiveTimes(x) == Mul64(x, 5)
  {
  }

  method Powers4(r: Limbs) returns (p2: Limbs, p3: Limbs, p4: Limbs)
    requires Below(r, TWO_27)
    ensures Below(p2, TWO_27) && Below(p3, TWO_27) && Below(p4, TWO_27)
    ensures Cong(Val(p2), Square(Val(r))) && Cong(Val(p3), Cube(Val(r))) && Cong(Val(p4), Fourth(Val(r)))
  {
    hide Cong, Val;
    p2 := P26Mul(r, r);
    p3 := P26Mul(p2, r);
    p4 := P26Mul(p2, p2);
    CongScale(Val(p2), Square(Val(r)), Val(r));
    CongTrans(Val(p3), Val(p2) * Val(r), Cube(Val(r)));
    CongMul(Val(p2), Square(Val(r)), Val(p2), Square(Val(r)));
    CongTrans(Val(p4), Val(p2) * Val(p2), Fourth(Val(r)));
  }

  // ----- the whole call -----

  ghost predicate LanesAdded(a: seq<Limbs>, v: seq<Limbs>, b: seq<Limbs>)
    requires |a| == 4 && |v| == 4 && |b| == 4
  {
    forall j :: 0 <= j < 4 ==> Val(b[j]) == Val(a[j]) + Val(v[j])
  }

  // A group of four blocks added to the lanes.
  method AddGroup(a: seq<Limbs>, m: seq<Byte>) returns (b: seq<Limbs>)
    requires AllBelow(a, TWO_27) && |m| == 64
    ensures |b| == 4 && AllBelow(b, TWO_28)
    ensures LanesAdded(a, MessageLanes(m), b)
  {
    hide Val, MessageLanes, AddLimbs;
    var v := MessageLanes(m);
    LaneOrder(m);
    AddLimbsValue(a[0], v[0]); AddLimbsValue(a[1], v[1]); AddLimbsValue(a[2], v[2]); AddLimbsValue(a[3], v[3]);
    b := [AddLimbs(a[0], v[0]), AddLimbs(a[1], v[1]), AddLimbs(a[2], v[2]), AddLimbs(a[3], v[3])];
  }

  // PMUL on all four lanes.
  method PMul(a: seq<Limbs>, f: seq<Limbs>, g: seq<Limbs>) returns (b: seq<Limbs>)
    requires AllBelow(a, TWO_28) && AllBelow(f, TWO_27)
    requires |g| == 4 && forall j :: 0 <= j < 4 ==> g[j] == Five(f[j])
    ensures AllBelow(b, TWO_27)
    ensures forall j :: 0 <= j < 4 ==> Cong(Val(b[j]), Val(a[j]) * Val(f[j]))
  {
    hide Val, Cong, Mul64;
    b := [];
    for j := 0 to 4
      invariant |b| == j && forall k :: 0 <= k < j ==> Below(b[k], TWO_27) && Cong(Val(b[k]), Val(a[k]) * Val(f[k]))
    {
      var o := PMulLane(a[j], f[j], g[j]);
      b := b + [o];
    }
  }

  // The lanes stand for the standard's accumulator after these blocks.
  ghost predicate Stands(a: seq<Limbs>, h: nat, r: nat, ms: seq<nat>)
    requires |a| == 4
  {
    Cong(WeightedLanes(a, r), Horner(h, r, ms))
  }

  // The same before the next group is added: still to be multiplied by r^4.
  ghost predicate Pending(a: seq<Limbs>, h: nat, r: nat, ms: seq<nat>)
    requires |a| == 4
  {
    Cong(WeightedLanes(a, r), Horner(h, r, ms) * Fourth(r))
  }

  lemma HornerFour(h: nat, r: nat, ms: seq<nat>, m0: nat, m1: nat, m2: nat, m3: nat)
    ensures Horner(h, r, ms + [m0, m1, m2, m3]) == Horner(h, r, ms) * Fourth(r) + Weighted(m0, m2, m1, m3, r)
  {
    hide Square, Cube, Fourth, Weighted, Horner;
    var a := ms + [m0];
    var b := a + [m1];
    var c := b + [m2];
    HornerAppend(h, r, ms, m0);
    HornerAppend(h, r, a, m1);
    HornerAppend(h, r, b, m2);
    HornerAppend(h, r, c, m3);
    assert c + [m3] == ms + [m0, m1, m2, m3];
    FourBlocks(Horner(h, r, ms), r, m0, m1, m2, m3);
  }

  lemma HornerAppend(h: nat, r: nat, ms: seq<nat>, m: nat)
    ensures Horner(h, r, ms + [m]) == (Horner(h, r, ms) + m) * r
  {
    var all := ms + [m];
    assert all[..|all| - 1] == ms;
  }

  // The standard's numbers for the blocks of a group.
  function FourNumbers(g: seq<Byte>): seq<nat>
    requires |g| == 64
  {
    [BlockNumber(g[..16]), BlockNumber(g[16..32]), BlockNumber(g[32..48]), BlockNumber(g[48..])]
  }

  // Adding a group turns Pending into Stands four blocks later.
  lemma GroupAdded(a: seq<Limbs>, b: seq<Limbs>, h: nat, r: nat, ms: seq<nat>, g: seq<Byte>)
    requires |a| == 4 && |b| == 4 && |g| == 64
    requires Pending(a, h, r, ms)
    requires LanesAdded(a, MessageLanes(g), b)
    ensures Stands(b, h, r, ms + FourNumbers(g))
  {
    hide Val, Messages, MessageLanes, Cong, Weighted, Horner, BlockNumber, Fourth;
    var v := MessageLanes(g);
    LaneOrder(g);
    WeightedAdd(Val(a[0]), Val(a[1]), Val(a[2]), Val(a[3]), Val(v[0]), Val(v[1]), Val(v[2]), Val(v[3]), r);
    var b0, b1, b2, b3 := BlockNumber(g[..16]), BlockNumber(g[16..32]), BlockNumber(g[32..48]), BlockNumber(g[48..]);
    HornerFour(h, r, ms, b0, b1, b2, b3);
    CongRefl(Weighted(b0, b2, b1, b3, r));
    CongAdd(WeightedLanes(a, r), Horner(h, r, ms) * Fourth(r), Weighted(b0, b2, b1, b3, r), Weighted(b0, b2, b1, b3, r));
  }

  lemma MessagesGroup(m: seq<Byte>, at: nat)
    requires |m| % 16 == 0 && at % 16 == 0 && at + 64 <= |m|
    ensures (at + 64) % 16 == 0
    ensures Messages(m[..at + 64]) == Messages(m[..at]) + Messages(m[at..at + 64])
  {
    hide Messages;
    FourBlocksOn(at);
    assert m[..at + 64] == m[..at] + m[at..at + 64];
    MessagesAppend(m[..at], m[at..at + 64]);
  }

  lemma FourBlocksOn(at: nat)
    requires at % 16 == 0
    ensures (at + 64) % 16 == 0
  {
    Quotient(at + 64, 16, at / 16 + 4, 0);
  }

  lemma FourMessages(g: seq<Byte>)
    requires |g| == 64
    ensures Messages(g) == FourNumbers(g)
  {
    hide BlockNumber;
    assert g[0..16] == g[..16] && g[48..64] == g[48..];
    var ms := Messages(g);
    assert ms[0] == BlockNumber(g[0..16]) && ms[1] == BlockNumber(g[16..32]);
    assert ms[2] == BlockNumber(g[32..48]) && ms[3] == BlockNumber(g[48..64]);
  }

  lemma MessagesAppend(a: seq<Byte>, b: seq<Byte>)
    requires |a| % 16 == 0 && |b| % 16 == 0
    ensures |a + b| % 16 == 0 && Messages(a + b) == Messages(a) + Messages(b)
  {
    hide BlockNumber;
    ChunksAppend(a, b);
    BothCounts(a, b, |a| / 16, |b| / 16);
    var all, parts := Messages(a + b), Messages(a) + Messages(b);
    forall i | 0 <= i < |all|
      ensures all[i] == parts[i]
    {
      assert all[i] == BlockNumber(Chunks(a + b)[i]);
    }
  }

  // Multiplying every lane by r^4 turns Stands into Pending.
  lemma GroupMultiplied(a: seq<Limbs>, b: seq<Limbs>, p4: nat, h: nat, r: nat, ms: seq<nat>)
    requires |a| == 4 && |b| == 4 && Stands(a, h, r, ms) && Cong(p4, Fourth(r))
    requires forall j :: 0 <= j < 4 ==> Cong(Val(b[j]), Val(a[j]) * p4)
    ensures Pending(b, h, r, ms)
  {
    hide Val, Cong, Weighted, Horner, Fourth;
    var w := WeightedLanes(a, r);
    WeightedCong(Val(b[0]), Val(b[1]), Val(b[2]), Val(b[3]), Val(a[0]) * p4, Val(a[1]) * p4, Val(a[2]) * p4, Val(a[3]) * p4, r);
    WeightedScale(Val(a[0]), Val(a[1]), Val(a[2]), Val(a[3]), r, p4);
    CongMul(w, Horner(h, r, ms), p4, Fourth(r));
    CongTrans(WeightedLanes(b, r), w * p4, Horner(h, r, ms) * Fourth(r));
  }

  lemma StartPending(h: Limbs, r: nat)
    requires Below(h, TWO_27)
    ensures var zero := Limbs(0, 0, 0, 0, 0);
            AllBelow([h, zero, zero, zero], TWO_27) && Pending([h, zero, zero, zero], Val(h), r, [])
  {
    hide Fourth, Square, Cube;
    CongRefl(Val(h) * Fourth(r));
  }

  // The group of four blocks at a place of the message.
  method TakeGroup(a: seq<Limbs>, ghost h: nat, ghost r: nat, m: seq<Byte>, at: nat) returns (b: seq<Limbs>)
    requires |a| == 4 && AllBelow(a, TWO_27) && |m| % 16 == 0 && at % 16 == 0 && at + 64 <= |m|
    requires Pending(a, h, r, Messages(m[..at]))
    ensures |b| == 4 && AllBelow(b, TWO_28) && (at + 64) % 16 == 0 && Stands(b, h, r, Messages(m[..at + 64]))
  {
    hide Val, Pending, Stands, Messages, MessageLanes, AllBelow;
    b := AddGroup(a, m[at..at + 64]);
    GroupAdded(a, b, h, r, Messages(m[..at]), m[at..at + 64]);
    MessagesGroup(m, at);
    FourMessages(m[at..at + 64]);
  }

  // All four lanes times r^4.
  method MultiplyGroup(b: seq<Limbs>, ghost h: nat, ghost r: nat, p4: Limbs, ghost ms: seq<nat>) returns (a: seq<Limbs>)
    requires AllBelow(b, TWO_28) && Below(p4, TWO_27) && Cong(Val(p4), Fourth(r)) && Stands(b, h, r, ms)
    ensures |a| == 4 && AllBelow(a, TWO_27) && Pending(a, h, r, ms)
  {
    hide Val, Cong, Pending, Stands, Five, Below, Fourth;
    a := PMul(b, [p4, p4, p4, p4], [Five(p4), Five(p4), Five(p4), Five(p4)]);
    GroupMultiplied(b, a, Val(p4), h, r, ms);
  }

  // The loop over groups; the last group is left unmultiplied.
  method AllGroups(h: Limbs, ghost r: nat, p4: Limbs, m: seq<Byte>, blocks: nat) returns (a: seq<Limbs>)
    requires Below(h, TWO_27) && Below(p4, TWO_27) && Cong(Val(p4), Fourth(r))
    requires blocks >= 4 && blocks % 4 == 0 && |m| == 16 * blocks
    ensures AllBelow(a, TWO_28) && Stands(a, Val(h), r, Messages(m))
  {
    hide Val, Cong, Pending, Stands, Messages, Five, MessageLanes, Below, Fourth, AllBelow;
    var zero := Limbs(0, 0, 0, 0, 0);
    a := [h, zero, zero, zero];
    StartPending(h, r);
    NoMessages(m);
    var at, rest := 0, blocks;
    while true
      invariant rest >= 4 && rest % 4 == 0 && at + 16 * rest == |m| && at % 16 == 0 && 0 <= at
      invariant |a| == 4 && AllBelow(a, TWO_27) && Pending(a, Val(h), r, Messages(m[..at]))
      decreases rest
    {
      var b := TakeGroup(a, Val(h), r, m, at);
      NextGroup(rest);
      at, rest := at + 64, rest - 4;
      if rest < 4 {
        assert m[..at] == m;
        return b;
      }
      a := MultiplyGroup(b, Val(h), r, p4, Messages(m[..at]));
    }
  }

  lemma NextGroup(rest: nat)
    requires rest % 4 == 0 && rest >= 4
    ensures (rest - 4) % 4 == 0 && (rest >= 8 || rest == 4)
  {
    Quotient(rest - 4, 4, rest / 4 - 1, 0);
  }

  lemma NoMessages(m: seq<Byte>)
    ensures Messages(m[..0]) == []
  {
  }

  // A limb of the four lanes, added.
  function LaneSum(a: nat, b: nat, c: nat, d: nat): nat {
    Add64(Add64(Add64(a, b), c), d)
  }

  function LaneTotals(a: seq<Limbs>): Limbs
    requires |a| == 4
  {
    Limbs(LaneSum(a[0].l0, a[1].l0, a[2].l0, a[3].l0), LaneSum(a[0].l1, a[1].l1, a[2].l1, a[3].l1),
          LaneSum(a[0].l2, a[1].l2, a[2].l2, a[3].l2), LaneSum(a[0].l3, a[1].l3, a[2].l3, a[3].l3),
          LaneSum(a[0].l4, a[1].l4, a[2].l4, a[3].l4))
  }

  lemma LaneSumExact(a: nat, b: nat, c: nat, d: nat)
    requires a < TWO_27 && b < TWO_27 && c < TWO_27 && d < TWO_27
    ensures LaneSum(a, b, c, d) == a + b + c + d
  {
  }

  lemma LaneTotalsValue(a: seq<Limbs>)
    requires AllBelow(a, TWO_27)
    ensures Below(LaneTotals(a), 0x2000_0000)
    ensures Val(LaneTotals(a)) == Val(a[0]) + Val(a[1]) + Val(a[2]) + Val(a[3])
  {
    hide LaneSum;
    var w, x, y, z := a[0], a[1], a[2], a[3];
    assert Below(w, TWO_27) && Below(x, TWO_27) && Below(y, TWO_27) && Below(z, TWO_27);
    LaneSumExact(w.l0, x.l0, y.l0, z.l0);
    LaneSumExact(w.l1, x.l1, y.l1, z.l1);
    LaneSumExact(w.l2, x.l2, y.l2, z.l2);
    LaneSumExact(w.l3, x.l3, y.l3, z.l3);
    LaneSumExact(w.l4, x.l4, y.l4, z.l4);
  }

  // Each lane times the power its block needs: the lanes now add up to the standard's value.
  lemma LanesAddUp(a: seq<Limbs>, b: seq<Limbs>, f: seq<Limbs>, h: nat, r: nat, ms: seq<nat>)
    requires |a| == 4 && |b| == 4 && |f| == 4 && Stands(a, h, r, ms)
    requires Cong(Val(f[0]), Fourth(r)) && Cong(Val(f[1]), Square(r)) && Cong(Val(f[2]), Cube(r)) && Val(f[3]) == r
    requires forall j :: 0 <= j < 4 ==> Cong(Val(b[j]), Val(a[j]) * Val(f[j]))
    ensures Cong(Val(b[0]) + Val(b[1]) + Val(b[2]) + Val(b[3]), Horner(h, r, ms))
  {
    hide Val, Cong, Horner, Fourth, Square, Cube;
    LaneTerm(Val(b[0]), Val(a[0]), Val(f[0]), Fourth(r));
    LaneTerm(Val(b[1]), Val(a[1]), Val(f[1]), Square(r));
    LaneTerm(Val(b[2]), Val(a[2]), Val(f[2]), Cube(r));
    var x, y, z := Val(a[0]) * Fourth(r), Val(a[1]) * Square(r), Val(a[2]) * Cube(r);
    CongAdd(Val(b[0]), x, Val(b[1]), y);
    CongAdd(Val(b[0]) + Val(b[1]), x + y, Val(b[2]), z);
    CongAdd(Val(b[0]) + Val(b[1]) + Val(b[2]), x + y + z, Val(b[3]), Val(a[3]) * r);
    CongTrans(Val(b[0]) + Val(b[1]) + Val(b[2]) + Val(b[3]), WeightedLanes(a, r), Horner(h, r, ms));
  }

  lemma LaneTerm(b: int, a: int, f: int, w: int)
    requires Cong(b, a * f) && Cong(f, w)
    ensures Cong(b, a * w)
  {
    hide Cong;
    CongScale(f, w, a);
    assert f * a == a * f && w * a == a * w;
    CongTrans(b, a * f, a * w);
  }

  function ToLimbs(x: seq<nat>): Limbs
    requires |x| == 5
  {
    Limbs(x[0], x[1], x[2], x[3], x[4])
  }

  // proven_sys_poly1305_blocks
  method MacBlocks(h: array<nat>, r: seq<nat>, m: seq<Byte>, blocks: nat)
    requires h.Length == 5 && |r| == 5
    requires Below(ToLimbs(h[..]), TWO_27) && Below(ToLimbs(r), TWO_26)
    requires blocks >= 4 && blocks % 4 == 0 && |m| == 16 * blocks
    modifies h
    ensures Below(ToLimbs(h[..]), TWO_27)
    ensures Val(ToLimbs(h[..])) % P == Iterate(old(Val(ToLimbs(h[..]))), Val(ToLimbs(r)), Messages(m))
    ensures Cong(Val(ToLimbs(h[..])),
                 old(Val(ToLimbs(h[..]))) * Pow(Val(ToLimbs(r)), blocks) + PowerSum(Val(ToLimbs(r)), Messages(m)))
  {
    hide Val, Cong, Stands, Messages, Fourth, Square, Cube, Mul64, FiveTimes, Horner, LaneTotals;
    var key := ToLimbs(r);
    var start := ToLimbs(h[..]);
    ghost var rv, ms := Val(key), Messages(m);
    var p2, p3, p4 := Powers4(key);
    var a := AllGroups(start, rv, p4, m, blocks);
    var f := [p4, p2, p3, key];
    var g := [FiveByShift(p4), FiveByShift(p2), FiveByShift(p3), FiveByShift(key)];
    FiveEitherWay(p4); FiveEitherWay(p2); FiveEitherWay(p3); FiveEitherWay(key);
    var b := PMul(a, f, g);
    LanesAddUp(a, b, f, Val(start), rv, ms);
    LaneTotalsValue(b);
    var o := CarryChain(LaneTotals(b));
    CongTrans(Val(o), Val(LaneTotals(b)), Horner(Val(start), rv, ms));
    Finish(o, Val(start), rv, ms);
    h[0], h[1], h[2], h[3], h[4] := o.l0, o.l1, o.l2, o.l3, o.l4;
    assert ToLimbs(h[..]) == o;
    assert |ms| == blocks by { MessageCount(m); }
  }

  lemma MessageCount(m: seq<Byte>)
    requires |m| % 16 == 0
    ensures |Messages(m)| == |m| / 16
  {
  }

  lemma Finish(o: Limbs, h: nat, r: nat, ms: seq<nat>)
    requires ms != [] && Cong(Val(o), Horner(h, r, ms))
    ensures Val(o) % P == Iterate(h, r, ms)
    ensures Cong(Val(o), h * Pow(r, |ms|) + PowerSum(r, ms))
  {
    hide Val, Cong, Horner;
    HornerIsPowerSum(h, r, ms);
    IterateIsHorner(h, r, ms);
    CongSym(Iterate(h, r, ms), Horner(h, r, ms));
    CongTrans(Val(o), Horner(h, r, ms), Iterate(h, r, ms));
    CongMod(Val(o), Iterate(h, r, ms));
    assert Iterate(h, r, ms) % P == Iterate(h, r, ms);
  }

  // ----- what a block is, and the standard's example -----

  // Each byte at its place, and a one above them.
  lemma MessageBytes(m: seq<Byte>, i: nat, j: nat)
    requires |m| % 16 == 0 && 16 * i + 16 <= |m| && j < 16
    ensures var v := Messages(m)[i] - TWO_128;
            0 <= v < TWO_128 && v / Pow(256, j) % 256 == m[16 * i + j] as nat
  {
    hide Pow, LittleEndian, FromByte;
    var b := m[16 * i..16 * i + 16];
    Pow2Values();
    LittleEndianAt(b, j);
    FromByteIs(b[j]);
    assert b[j] == m[16 * i + j];
  }

  // The key and the three blocks of section 2.5.2 of RFC 8439, the last one short.
  lemma IterateExample()
    ensures Iterate(0, 0x806d5400e52447c036d555408bed685,
                    [0x16f4620636968706172676f7470797243, 0x16f7247206863726165736552206d7572, 0x17075]) ==
            0x28d31b7caff946c77c8844335369d03a7
  {
    hide Iterate;
    IterateThree(0x806d5400e52447c036d555408bed685,
                 0x16f4620636968706172676f7470797243, 0x16f7247206863726165736552206d7572, 0x17075);
    ExampleBlocks();
  }

  lemma ExampleBlocks()
    ensures (0 + 0x16f4620636968706172676f7470797243) * 0x806d5400e52447c036d555408bed685 % P ==
            0x2c88c77849d64ae9147ddeb88e69c83fc
    ensures (0x2c88c77849d64ae9147ddeb88e69c83fc + 0x16f7247206863726165736552206d7572) * 0x806d5400e52447c036d555408bed685 % P ==
            0x2d8adaf23b0337fa7cccfb4ea344b30de
    ensures (0x2d8adaf23b0337fa7cccfb4ea344b30de + 0x17075) * 0x806d5400e52447c036d555408bed685 % P ==
            0x28d31b7caff946c77c8844335369d03a7
  {
  }

  lemma IterateThree(r: nat, a: nat, b: nat, c: nat)
    ensures Iterate(0, r, [a, b, c]) == (((0 + a) * r % P + b) * r % P + c) * r % P
  {
    hide Iterate;
    var ms := [a, b, c];
    IterateNext(0, r, ms[..1]);
    IterateNext(0, r, ms[..2]);
    IterateNext(0, r, ms);
    assert ms[..0] == [] && ms[..1][..0] == [] && ms[..2][..1] == ms[..1];
    IterateNone(0, r);
  }

  lemma IterateNone(h: nat, r: nat)
    ensures Iterate(h, r, []) == h
  {
  }

  lemma IterateNext(h: nat, r: nat, ms: seq<nat>)
    requires ms != []
    ensures Iterate(h, r, ms) == (Iterate(h, r, ms[..|ms| - 1]) + ms[|ms| - 1]) * r % P
  {
  }

  // The limbs of the arrays, the lowest first.
  lemma LimbPlaces(x: seq<nat>)
    requires |x| == 5
    ensures Val(ToLimbs(x)) == x[0] + 0x400_0000 * (x[1] + 0x400_0000 * (x[2] + 0x400_0000 * (x[3] + 0x400_0000 * x[4])))
  {
  }

  lemma PrimeIs()
    ensures P == 4 * TWO_128 - 5
  {
  }
}
