// Polynomials over GF(2). A natural number stands for the polynomial whose
// coefficients are its binary digits: addition is exclusive or, multiplication
// is the carry-less product.
module Gf2 {
  import opened Powers

  function Differ(a: nat, b: nat): (bit: nat)
    ensures bit < 2
  {
    if a % 2 == b % 2 then 0 else 1
  }

  function Xor(a: nat, b: nat): nat
    decreases a + b
  {
    if a == 0 then b
    else if b == 0 then a
    else Differ(a, b) + 2 * Xor(a / 2, b / 2)
  }

  function Scale(bit: nat, a: nat): nat {
    if bit % 2 == 1 then a else 0
  }

  function Mul(a: nat, b: nat): nat
    decreases b
  {
    if b == 0 then 0 else Xor(Scale(b, a), 2 * Mul(a, b / 2))
  }

  // ----- exclusive or -----

  lemma XorZero(a: nat)
    ensures Xor(a, 0) == a && Xor(0, a) == a
  {
  }

  lemma {:induction false} XorDigits(a: nat, b: nat)
    ensures Xor(a, b) % 2 == Differ(a, b)
    ensures Xor(a, b) / 2 == Xor(a / 2, b / 2)
  {
  }

  lemma {:induction false} XorComm(a: nat, b: nat)
    ensures Xor(a, b) == Xor(b, a)
    decreases a + b
  {
    if a != 0 && b != 0 { XorComm(a / 2, b / 2); }
  }

  lemma {:induction false} XorAssoc(a: nat, b: nat, c: nat)
    ensures Xor(Xor(a, b), c) == Xor(a, Xor(b, c))
    decreases a + b + c
  {
    if a != 0 && b != 0 && c != 0 {
      XorAssoc(a / 2, b / 2, c / 2);
      XorDigits(a, b);
      XorDigits(b, c);
      SameDigits(Xor(Xor(a, b), c), Xor(a, Xor(b, c))) by {
        XorDigits(Xor(a, b), c);
        XorDigits(a, Xor(b, c));
      }
    }
  }

  lemma SameDigits(a: nat, b: nat)
    requires a % 2 == b % 2 && a / 2 == b / 2
    ensures a == b
  {
  }

  lemma {:induction false} XorSelf(a: nat)
    ensures Xor(a, a) == 0
  {
    if a != 0 { XorSelf(a / 2); }
  }

  // (a + c) + (b + c) = a + b.
  lemma XorCancel(a: nat, b: nat, c: nat)
    ensures Xor(Xor(a, c), Xor(b, c)) == Xor(a, b)
  {
    hide Xor;
    XorComm(b, c);
    XorAssoc(a, c, Xor(c, b));
    XorAssoc(c, c, b);
    XorSelf(c);
    XorZero(b);
  }

  // (a + b) + (c + d) = (a + c) + (b + d).
  lemma XorSwap(a: nat, b: nat, c: nat, d: nat)
    ensures Xor(Xor(a, b), Xor(c, d)) == Xor(Xor(a, c), Xor(b, d))
  {
    hide Xor;
    XorAssoc(a, b, Xor(c, d));
    XorAssoc(b, c, d);
    XorComm(b, c);
    XorAssoc(c, b, d);
    XorAssoc(a, c, Xor(b, d));
  }

  lemma XorDouble(a: nat, b: nat)
    ensures Xor(2 * a, 2 * b) == 2 * Xor(a, b)
  {
  }

  lemma {:induction false} XorBound(a: nat, b: nat, n: nat)
    requires a < Pow2(n) && b < Pow2(n)
    ensures Xor(a, b) < Pow2(n)
  {
    if a != 0 && b != 0 { XorBound(a / 2, b / 2, n - 1); }
  }

  // Two numbers cut at the same position are added part by part.
  lemma {:induction false} XorConcat(n: nat, a: nat, b: nat, c: nat, d: nat)
    requires a < Pow2(n) && c < Pow2(n)
    ensures Xor(a + Pow2(n) * b, c + Pow2(n) * d) == Xor(a, c) + Pow2(n) * Xor(b, d)
  {
    XorConcatShl(n, a, b, c, d);
    ShlIsTimesPow2(n, b);
    ShlIsTimesPow2(n, d);
    ShlIsTimesPow2(n, Xor(b, d));
  }

  lemma {:induction false} XorConcatShl(n: nat, a: nat, b: nat, c: nat, d: nat)
    requires a < Pow2(n) && c < Pow2(n)
    ensures Xor(a + Shl(n, b), c + Shl(n, d)) == Xor(a, c) + Shl(n, Xor(b, d))
    decreases n
  {
    hide Xor;
    XorZero(0);
    if n > 0 {
      XorConcatShl(n - 1, a / 2, b, c / 2, d);
      XorStep(a, c, Shl(n - 1, b), Shl(n - 1, d), Shl(n - 1, Xor(b, d)));
    }
  }

  // The same with the power of two written as a number.
  lemma XorCut(n: nat, p: nat, a: nat, b: nat, c: nat, d: nat)
    requires p == Pow2(n) && a < p && c < p
    ensures Xor(a, c) < p
    ensures Xor(a + p * b, c + p * d) == Xor(a, c) + p * Xor(b, d)
  {
    hide Xor;
    XorBound(a, c, n);
    XorConcat(n, a, b, c, d);
  }

  lemma XorApart(n: nat, p: nat, a: nat, b: nat)
    requires p == Pow2(n) && a < p
    ensures Xor(a, p * b) == a + p * b
  {
    hide Xor;
    XorDisjoint(n, a, b);
  }

  lemma {:induction false} XorStep(a: nat, c: nat, x: nat, y: nat, z: nat)
    requires Xor(a / 2 + x, c / 2 + y) == Xor(a / 2, c / 2) + z
    ensures Xor(a + 2 * x, c + 2 * y) == Xor(a, c) + 2 * z
  {
    hide Xor;
    XorDigits(a, c);
    XorDigits(a + 2 * x, c + 2 * y);
    SameDigits(Xor(a + 2 * x, c + 2 * y), Xor(a, c) + 2 * z);
  }

  // A multiple of 2^n and a number below 2^n share no bit, so their sum is their exclusive or.
  lemma XorDisjoint(n: nat, a: nat, b: nat)
    requires a < Pow2(n)
    ensures Xor(a, Pow2(n) * b) == a + Pow2(n) * b
  {
    XorConcat(n, a, 0, 0, b);
    assert Pow2(n) * 0 == 0;
  }

  lemma XorShl(n: nat, a: nat, b: nat)
    ensures Xor(Shl(n, a), Shl(n, b)) == Shl(n, Xor(a, b))
  {
    XorConcatShl(n, 0, a, 0, b);
  }

  // ----- the carry-less product -----

  lemma {:induction false} MulZero(b: nat)
    ensures Mul(0, b) == 0
  {
    if b != 0 { MulZero(b / 2); }
  }

  lemma {:induction false} MulDistributesLeft(a: nat, b: nat, c: nat)
    ensures Mul(Xor(a, b), c) == Xor(Mul(a, c), Mul(b, c))
    decreases c
  {
    if c != 0 {
      MulDistributesLeft(a, b, c / 2);
      XorDouble(Mul(a, c / 2), Mul(b, c / 2));
      XorSwap(Scale(c, a), 2 * Mul(a, c / 2), Scale(c, b), 2 * Mul(b, c / 2));
    }
  }

  lemma {:induction false} MulDistributesRight(a: nat, b: nat, c: nat)
    ensures Mul(a, Xor(b, c)) == Xor(Mul(a, b), Mul(a, c))
    decreases b + c
  {
    if b != 0 && c != 0 {
      MulDistributesRight(a, b / 2, c / 2);
      XorDouble(Mul(a, b / 2), Mul(a, c / 2));
      XorSwap(Scale(b, a), 2 * Mul(a, b / 2), Scale(c, a), 2 * Mul(a, c / 2));
      ScaleXor(a, b, c);
      XorDigits(b, c);
      MulDigits(a, Xor(b, c));
    }
  }

  lemma ScaleXor(a: nat, b: nat, c: nat)
    ensures Scale(Xor(b, c), a) == Xor(Scale(b, a), Scale(c, a))
  {
    XorDigits(b, c);
    XorSelf(a);
  }

  lemma MulDigits(a: nat, b: nat)
    ensures Mul(a, b) == Xor(Scale(b, a), 2 * Mul(a, b / 2))
  {
    if b == 0 { assert Mul(a, b / 2) == 0; }
  }

  lemma {:induction false} MulDoubleLeft(a: nat, b: nat)
    ensures Mul(2 * a, b) == 2 * Mul(a, b)
    decreases b
  {
    if b != 0 {
      MulDoubleLeft(a, b / 2);
      XorDouble(Scale(b, a), 2 * Mul(a, b / 2));
    }
  }

  lemma MulDoubleRight(a: nat, b: nat)
    ensures Mul(a, 2 * b) == 2 * Mul(a, b)
  {
  }

  lemma {:induction false} MulAssoc(a: nat, b: nat, c: nat)
    ensures Mul(Mul(a, b), c) == Mul(a, Mul(b, c))
    decreases c
  {
    hide Xor;
    if c != 0 {
      MulAssoc(a, b, c / 2);
      MulDistributesRight(a, Scale(c, b), 2 * Mul(b, c / 2));
      MulDoubleRight(a, Mul(b, c / 2));
    }
  }

  lemma {:induction false} MulComm(a: nat, b: nat)
    ensures Mul(a, b) == Mul(b, a)
    decreases b
  {
    hide Xor;
    if b == 0 {
      MulZero(a);
    } else {
      MulComm(a, b / 2);
      // b is its low bit plus twice its half.
      XorDisjoint(1, b % 2, b / 2);
      Pow2Values();
      MulDistributesLeft(b % 2, 2 * (b / 2), a);
      MulDoubleLeft(b / 2, a);
      if b % 2 == 1 { MulOne(a); } else { MulZero(a); }
    }
  }

  lemma {:induction false} MulOne(a: nat)
    ensures Mul(1, a) == a
  {
    hide Xor;
    if a != 0 {
      MulOne(a / 2);
      XorDisjoint(1, a % 2, a / 2);
      assert Pow2(1) == 2;
    }
  }

  lemma {:induction false} MulShl(n: nat, a: nat, b: nat)
    ensures Mul(a, Shl(n, b)) == Shl(n, Mul(a, b))
  {
    if n > 0 {
      MulShl(n - 1, a, b);
      MulDoubleRight(a, Shl(n - 1, b));
    }
  }

  lemma MulShlLeft(n: nat, a: nat, b: nat)
    ensures Mul(Shl(n, a), b) == Shl(n, Mul(a, b))
  {
    MulComm(Shl(n, a), b);
    MulShl(n, b, a);
    MulComm(b, a);
  }

  lemma {:induction false} MulBound(a: nat, b: nat, m: nat, n: nat)
    requires a < Pow2(m) && b < Pow2(n) && n > 0
    ensures Mul(a, b) < Pow2(m + n - 1)
    decreases n
  {
    if n == 1 {
      assert b / 2 == 0;
    } else {
      MulBound(a, b / 2, m, n - 1);
      Pow2Monotonic(m, m + n - 1);
      XorBound(Scale(b, a), 2 * Mul(a, b / 2), m + n - 1);
    }
  }

  // The degree of a product: a nonzero multiple of a polynomial of degree n has degree at least n.
  lemma {:induction false} MulAtLeast(q: nat, m: nat, n: nat)
    requires q > 0 && Pow2(n) <= m < Pow2(n + 1)
    ensures Mul(m, q) >= Pow2(n)
    decreases q
  {
    if q == 1 {
      assert Mul(m, 1) == Xor(m, 2 * Mul(m, 0));
    } else {
      MulAtLeast(q / 2, m, n);
      XorAtLeast(Scale(q, m), 2 * Mul(m, q / 2), n + 1);
      Pow2Monotonic(n, n + 1);
    }
  }

  lemma {:induction false} XorAtLeast(a: nat, b: nat, n: nat)
    requires a < Pow2(n) <= b
    ensures Xor(a, b) >= Pow2(n)
  {
    if n > 0 && a != 0 { XorAtLeast(a / 2, b / 2, n - 1); }
  }

  // ----- congruence modulo a polynomial -----

  ghost predicate Congruent(m: nat, a: nat, b: nat) {
    exists q: nat :: Xor(a, b) == Mul(m, q)
  }

  lemma CongruentRefl(m: nat, a: nat)
    ensures Congruent(m, a, a)
  {
    XorSelf(a);
    assert Xor(a, a) == Mul(m, 0);
  }

  lemma CongruentSym(m: nat, a: nat, b: nat)
    requires Congruent(m, a, b)
    ensures Congruent(m, b, a)
  {
    hide Xor;
    XorComm(a, b);
  }

  lemma CongruentTrans(m: nat, a: nat, b: nat, c: nat)
    requires Congruent(m, a, b) && Congruent(m, b, c)
    ensures Congruent(m, a, c)
  {
    hide Xor;
    var p: nat :| Xor(a, b) == Mul(m, p);
    var q: nat :| Xor(b, c) == Mul(m, q);
    XorComm(b, c);
    XorCancel(a, c, b);
    MulDistributesRight(m, p, q);
    assert Xor(a, c) == Mul(m, Xor(p, q));
  }

  lemma CongruentXor(m: nat, a: nat, b: nat, c: nat, d: nat)
    requires Congruent(m, a, b) && Congruent(m, c, d)
    ensures Congruent(m, Xor(a, c), Xor(b, d))
  {
    hide Xor;
    var p: nat :| Xor(a, b) == Mul(m, p);
    var q: nat :| Xor(c, d) == Mul(m, q);
    XorSwap(a, c, b, d);
    MulDistributesRight(m, p, q);
    assert Xor(Xor(a, c), Xor(b, d)) == Mul(m, Xor(p, q));
  }

  lemma CongruentMul(m: nat, c: nat, a: nat, b: nat)
    requires Congruent(m, a, b)
    ensures Congruent(m, Mul(c, a), Mul(c, b))
  {
    hide Xor;
    var q: nat :| Xor(a, b) == Mul(m, q);
    MulDistributesRight(c, a, b);
    MulAssoc(c, m, q);
    MulComm(c, m);
    MulAssoc(m, c, q);
    assert Xor(Mul(c, a), Mul(c, b)) == Mul(m, Mul(c, q));
  }

  lemma CongruentShl(m: nat, n: nat, a: nat, b: nat)
    requires Congruent(m, a, b)
    ensures Congruent(m, Shl(n, a), Shl(n, b))
  {
    hide Xor, Mul, Shl;
    var q: nat :| Xor(a, b) == Mul(m, q);
    XorShl(n, a, b);
    MulShl(n, m, q);
    assert Xor(Shl(n, a), Shl(n, b)) == Mul(m, Shl(n, q));
  }

  lemma MulParity(m: nat, q: nat)
    requires m % 2 == 1
    ensures Mul(m, q) % 2 == q % 2
    ensures q % 2 == 0 ==> Mul(m, q) == 2 * Mul(m, q / 2)
  {
    hide Xor;
    MulDigits(m, q);
    XorDigits(Scale(q, m), 2 * Mul(m, q / 2));
    XorZero(2 * Mul(m, q / 2));
  }

  // A polynomial with a constant term is invertible modulo x^n, so powers of x cancel.
  lemma {:induction false} CongruentCancelShl(m: nat, n: nat, a: nat, b: nat)
    requires m % 2 == 1 && Congruent(m, Shl(n, a), Shl(n, b))
    ensures Congruent(m, a, b)
    decreases n
  {
    hide Xor;
    if n > 0 {
      var x, y := Shl(n - 1, a), Shl(n - 1, b);
      var q: nat :| Xor(2 * x, 2 * y) == Mul(m, q);
      XorDouble(x, y);
      MulParity(m, q);
      assert Xor(x, y) == Mul(m, q / 2);
      CongruentCancelShl(m, n - 1, a, b);
    }
  }

  // Remainders are unique.
  lemma CongruentUnique(m: nat, n: nat, a: nat, b: nat)
    requires Pow2(n) <= m < Pow2(n + 1)
    requires a < Pow2(n) && b < Pow2(n) && Congruent(m, a, b)
    ensures a == b
  {
    hide Xor;
    var q: nat :| Xor(a, b) == Mul(m, q);
    XorBound(a, b, n);
    if q > 0 { MulAtLeast(q, m, n); }
    XorZeroMeansEqual(a, b);
  }

  lemma {:induction false} XorZeroMeansEqual(a: nat, b: nat)
    requires Xor(a, b) == 0
    ensures a == b
    decreases a + b
  {
    if a != 0 && b != 0 {
      XorDigits(a, b);
      XorZeroMeansEqual(a / 2, b / 2);
    }
  }
}
