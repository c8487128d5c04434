// Integer powers of 2, 5 and 10, also with negative exponents, and how they compare.
module Exponents {
  import opened Powers

  // int.bit_length
  function BitLength(n: nat): (l: int)
    ensures l >= 0 && (n > 0 ==> l > 0)
  {
    if n == 0 then 0 else 1 + BitLength(n / 2)
  }

  lemma {:induction false} BitLengthBounds(n: nat)
    requires n > 0
    ensures Pow2(BitLength(n) - 1) <= n < Pow2(BitLength(n))
  {
    if n > 1 { BitLengthBounds(n / 2); }
  }

  // ----- laws of exponents -----

  lemma {:induction false} PowAdd(b: nat, m: nat, n: nat)
    ensures Pow(b, m + n) == Pow(b, m) * Pow(b, n)
  {
    if m > 0 {
      PowAdd(b, m - 1, n);
      Reassociate(b, Pow(b, m - 1), Pow(b, n));
    }
  }

  lemma {:induction false} PowPow(b: nat, m: nat, n: nat)
    ensures Pow(b, m * n) == Pow(Pow(b, m), n)
  {
    if n > 0 {
      PowPow(b, m, n - 1);
      PowAdd(b, m, m * (n - 1));
      assert m * n == m + m * (n - 1);
    } else {
      assert m * n == 0;
    }
  }

  lemma {:induction false} PowOfProduct(a: nat, b: nat, n: nat)
    ensures Pow(a * b, n) == Pow(a, n) * Pow(b, n)
  {
    if n > 0 {
      PowOfProduct(a, b, n - 1);
      MulSwap(a, b, Pow(a, n - 1), Pow(b, n - 1));
    }
  }

  lemma MulSwap(a: nat, b: nat, x: nat, y: nat)
    ensures (a * b) * (x * y) == (a * x) * (b * y)
  {
    Reassociate(a, b, x * y);
    Reassociate(b, x, y);
    Reassociate(x, b, y);
    Reassociate(a, x, b * y);
  }

  lemma {:induction false} PowMonotonic(x: nat, y: nat, n: nat)
    requires x <= y
    ensures Pow(x, n) <= Pow(y, n)
    ensures x < y && n > 0 ==> Pow(x, n) < Pow(y, n)
  {
    if n > 0 {
      PowMonotonic(x, y, n - 1);
      MulMonotonic(x, y, Pow(x, n - 1), Pow(y, n - 1));
    }
  }

  lemma {:induction false} Pow2IsPow(n: nat)
    ensures Pow2(n) == Pow(2, n)
  {
    if n > 0 { Pow2IsPow(n - 1); }
  }

  // From 2^p > 10^q and 2^a < 10^b: p/q > a/b.
  lemma RatioAbove(p: nat, q: nat, a: nat, b: nat)
    requires b > 0 && Pow2(p) > Pow(10, q) && Pow2(a) < Pow(10, b)
    ensures b * p > a * q
  {
    hide Pow, Pow2;
    Crossed(p, q, a, b);
    PowMonotonic(Pow(10, q), Pow2(p), b);
    PowMonotonic(Pow2(a), Pow(10, b), q);
    if b * p <= a * q {
      Pow2Monotonic(p * b, a * q);
      assert false;
    }
  }

  // From 2^m <= 10^q and 10^b < 2^a: m/q < a/b.
  lemma RatioBelow(m: nat, q: nat, a: nat, b: nat)
    requires q > 0 && Pow2(m) <= Pow(10, q) && Pow(10, b) < Pow2(a)
    ensures b * m < a * q
  {
    hide Pow, Pow2;
    Crossed(m, q, a, b);
    PowMonotonic(Pow2(m), Pow(10, q), b);
    PowMonotonic(Pow(10, b), Pow2(a), q);
    if b * m >= a * q {
      Pow2Monotonic(a * q, m * b);
      assert false;
    }
  }

  lemma Crossed(p: nat, q: nat, a: nat, b: nat)
    ensures Pow2(p * b) == Pow(Pow2(p), b) && Pow2(a * q) == Pow(Pow2(a), q)
    ensures Pow(Pow(10, q), b) == Pow(Pow(10, b), q)
  {
    hide Pow, Pow2;
    Pow2IsPow(p); Pow2IsPow(a); Pow2IsPow(p * b); Pow2IsPow(a * q);
    PowPow(2, p, b);
    PowPow(2, a, q);
    PowPow(10, q, b);
    PowPow(10, b, q);
    assert q * b == b * q;
  }

  // ----- two close approximations of log2(10): 485/146 below, 2136/643 above -----

  // One squaring of an upper bound m * 2^e of 5^n, cut to fewer digits.
  lemma SquareUp(n: nat, c: nat, m: nat, e: nat, m2: nat, d: nat)
    requires Pow(5, n) <= m * Pow2(e)
    requires m * m * Pow(5, c) <= m2 * Pow2(d)
    ensures Pow(5, 2 * n + c) <= m2 * Pow2(2 * e + d)
  {
    hide Pow, Pow2;
    SquareParts(n, c, e, d);
    var x, k, g, h := Pow(5, n), Pow(5, c), Pow2(e), Pow2(d);
    ProductUp(x, m * g);
    MulMonotonic(x * x, (m * g) * (m * g), k, k);
    Regroup(m, g, k);
    MulMonotonic(m * m * k, m2 * h, g * g, g * g);
    Reassociate(m2, h, g * g);
  }

  lemma SquareDown(n: nat, c: nat, m: nat, e: nat, m2: nat, d: nat)
    requires m * Pow2(e) <= Pow(5, n)
    requires m2 * Pow2(d) <= m * m * Pow(5, c)
    ensures m2 * Pow2(2 * e + d) <= Pow(5, 2 * n + c)
  {
    hide Pow, Pow2;
    SquareParts(n, c, e, d);
    var x, k, g, h := Pow(5, n), Pow(5, c), Pow2(e), Pow2(d);
    ProductUp(m * g, x);
    MulMonotonic((m * g) * (m * g), x * x, k, k);
    Regroup(m, g, k);
    MulMonotonic(m2 * h, m * m * k, g * g, g * g);
    Reassociate(m2, h, g * g);
  }

  lemma Regroup(m: nat, g: nat, k: nat)
    ensures (m * g) * (m * g) * k == (m * m * k) * (g * g)
  {
    var a, b := m * m, g * g;
    MulSwap(m, g, m, g);
    Reassociate(a, b, k);
    Reassociate(a, k, b);
  }

  lemma SquareParts(n: nat, c: nat, e: nat, d: nat)
    ensures Pow(5, 2 * n + c) == Pow(5, n) * Pow(5, n) * Pow(5, c)
    ensures Pow2(2 * e + d) == Pow2(e) * Pow2(e) * Pow2(d)
  {
    hide Pow, Pow2;
    PowAdd(5, n, n); PowAdd(5, n + n, c);
    Pow2Add(e, e); Pow2Add(e + e, d);
  }

  lemma ProductUp(x: nat, y: nat)
    requires x <= y
    ensures x * x <= y * y
  {
    MulMonotonic(x, y, x, y);
  }

  lemma FivePowers()
    ensures Pow(5, 0) == 1 && Pow(5, 1) == 5 && Pow(5, 4) == 625 && Pow(5, 10) == 9765625
    ensures Pow2(0) == 1 && Pow2(10) == 1024 && Pow2(15) == 0x8000
    ensures Pow2(31) == 0x8000_0000 && Pow2(32) == TWO_32 && Pow2(33) == 2 * TWO_32 && Pow2(34) == 4 * TWO_32
  {
    assert Pow(5, 2) == 25 && Pow(5, 4) == 625 && Pow(5, 6) == 15625 && Pow(5, 8) == 390625;
    Pow2Small();
    assert Pow2(4) == 16;
    Pow2Add(8, 2);
    Pow2Add(10, 5);
  }

  lemma FiveTo643()
    ensures Pow(5, 643) < Pow2(1493)
  {
    FivePowers();
    hide Pow, Pow2;
    SquareUp(10, 0, 9765625, 0, 2910383046, 15);
    SquareUp(20, 0, 2910383046, 15, 3944304527, 31);
    SquareUp(40, 0, 3944304527, 61, 3622271634, 32);
    SquareUp(80, 0, 3622271634, 154, 3054936368, 32);
    SquareUp(160, 1, 3054936368, 340, 2716154621, 34);
    SquareUp(321, 1, 2716154621, 714, 4294267813, 33);
    Pow2Add(1461, 32);
    Pow2Positive(1461);
  }

  lemma FiveTo146()
    ensures Pow2(339) < Pow(5, 146)
  {
    FivePowers();
    hide Pow, Pow2;
    SquareDown(4, 1, 625, 0, 1953125, 0);
    SquareDown(9, 0, 1953125, 0, 3725290298, 10);
    SquareDown(18, 0, 3725290298, 10, 3231174266, 32);
    SquareDown(36, 1, 3231174266, 52, 3038581675, 34);
    SquareDown(73, 0, 3038581675, 138, 2149720349, 32);
    Pow2Add(308, 31);
    Pow2Positive(308);
  }

  lemma Pow2Positive(n: nat)
    ensures Pow2(n) > 0
  {
  }

  lemma TenTo643()
    ensures Pow(10, 643) < Pow2(2136)
  {
    FiveTo643();
    hide Pow, Pow2;
    PowOfProduct(5, 2, 643);
    Pow2IsPow(643);
    Pow2Add(1493, 643);
    TimesStrict(Pow(5, 643), Pow2(1493), Pow2(643));
  }

  lemma TenTo146()
    ensures Pow2(485) < Pow(10, 146)
  {
    FiveTo146();
    hide Pow, Pow2;
    PowOfProduct(5, 2, 146);
    Pow2IsPow(146);
    Pow2Add(339, 146);
    TimesStrict(Pow2(339), Pow(5, 146), Pow2(146));
  }

  lemma TimesStrict(x: nat, y: nat, k: nat)
    requires x < y && k > 0
    ensures x * k < y * k
  {
  }

  // ----- exponents of either sign -----

  function Power(b: nat, e: int): (p: real)
    requires b > 0
    ensures p > 0.0
  {
    if e >= 0 then Pow(b, e) as real else 1.0 / Pow(b, -e) as real
  }

  function Two(e: int): (p: real)
    ensures p > 0.0
  {
    Power(2, e)
  }

  lemma TwoNext(e: int)
    ensures Two(e + 1) == 2.0 * Two(e)
  {
    if e < 0 {
      var p := Pow(2, -e - 1);
      assert Pow(2, -e) == 2 * p;
    }
  }

  lemma TwoZero()
    ensures Two(0) == 1.0
  {
  }

  lemma RealAssoc(a: real, b: real)
    ensures 2.0 * (a * b) == a * (2.0 * b)
  {
  }

  lemma {:induction false} TwoAddNat(e: int, n: nat)
    ensures Two(e + n) == Two(e) * Two(n) && Two(n) >= 1.0
    decreases n
  {
    hide Two;
    if n == 0 {
      TwoZero();
    } else {
      TwoAddNat(e, n - 1);
      TwoNext(e + n - 1);
      TwoNext(n - 1);
      RealAssoc(Two(e), Two(n - 1));
    }
  }

  lemma RealScale(a: real, b: real)
    requires a > 0.0 && b >= 1.0
    ensures a * b >= a
  {
  }

  lemma TwoMonotonic(m: int, n: int)
    requires m <= n
    ensures Two(m) <= Two(n)
  {
    hide Two, Power;
    var d := n - m;
    TwoAddNat(m, d);
    assert m + d == n;
    RealScale(Two(m), Two(d));
  }

  // m is the floor of log2(x)
  predicate IsFloorLog2(m: int, x: real) { Two(m) <= x < Two(m + 1) }

  lemma FloorLog2Unique(m: int, n: int, x: real)
    requires IsFloorLog2(m, x) && IsFloorLog2(n, x)
    ensures m == n
  {
    hide Two;
    if m < n {
      TwoMonotonic(m + 1, n);
      assert false;
    } else if n < m {
      TwoMonotonic(n + 1, m);
      assert false;
    }
  }
}
