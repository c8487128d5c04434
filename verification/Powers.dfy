// Powers of two and binary digits of the natural numbers, shared by every
// component that works on machine words, bit positions or limbs.
module Powers {

  const TWO_32: nat := 0x1_0000_0000
  const TWO_64: nat := 0x1_0000_0000_0000_0000
  const TWO_96: nat := 0x1_0000_0000_0000_0000_0000_0000
  const TWO_128: nat := 0x1_0000_0000_0000_0000_0000_0000_0000_0000

  function Pow2(n: nat): (p: nat)
    ensures p > 0
  {
    if n == 0 then 1 else 2 * Pow2(n - 1)
  }

  function Pow(b: nat, n: nat): (p: nat)
    ensures b > 0 ==> p > 0
  {
    if n == 0 then 1 else b * Pow(b, n - 1)
  }

  // a * 2^n
  function Shl(n: nat, a: nat): nat {
    if n == 0 then a else 2 * Shl(n - 1, a)
  }

  // a / 2^n
  function Shr(n: nat, a: nat): nat {
    if n == 0 then a else Shr(n - 1, a / 2)
  }

  // a % 2^n
  function Low(n: nat, a: nat): (r: nat)
    ensures r < Pow2(n)
  {
    if n == 0 then 0 else a % 2 + 2 * Low(n - 1, a / 2)
  }

  // ----- products and quotients, from their witnesses -----

  lemma MulMonotonic(x: nat, y: nat, u: nat, v: nat)
    requires x <= y && u <= v
    ensures x * u <= y * v
    ensures x < y && v > 0 ==> x * u < y * v
  {
    assert x * v == x * u + x * (v - u);
    assert y * v == x * v + (y - x) * v;
  }

  lemma Reassociate(a: int, b: int, c: int)
    ensures (a * b) * c == a * (b * c)
  {
  }

  // The quotient and the remainder are the only ones there are.
  lemma Quotient(x: int, d: nat, q: int, r: nat)
    requires x == d * q + r && r < d
    ensures x / d == q && x % d == r
  {
    var k, m := x / d, x % d;
    assert x == d * k + m;
    assert d * (q - k) == d * q - d * k == m - r;
    if k < q {
      MulMonotonic(d, d, 1, q - k);
    } else if q < k {
      assert d * (k - q) == d * k - d * q;
      MulMonotonic(d, d, 1, k - q);
    }
  }

  lemma PowNext(b: nat, n: nat)
    ensures Pow(b, n + 1) == b * Pow(b, n)
  {
  }

  // Dividing by a base, and then by a power of it.
  lemma DivideTwice(b: nat, n: nat, k: nat)
    requires b > 0
    ensures Pow(b, k) > 0 && Pow(b, k + 1) > 0 && n / Pow(b, k + 1) == n / b / Pow(b, k)
  {
    hide Pow;
    var m, p := n / b, Pow(b, k);
    var q, r := m / p, m % p;
    PowNext(b, k);
    assert m == p * q + r && n == b * m + n % b;
    assert b * (p * q + r) == b * (p * q) + b * r;
    Reassociate(b, p, q);
    MulMonotonic(b, b, r + 1, p);
    Quotient(n, b * p, q, b * r + n % b);
  }

  lemma {:induction false} Pow2Add(m: nat, n: nat)
    ensures Pow2(m + n) == Pow2(m) * Pow2(n)
  {
    if m > 0 {
      Pow2Add(m - 1, n);
      Reassociate(2, Pow2(m - 1), Pow2(n));
    }
  }

  lemma {:induction false} Pow2Monotonic(m: nat, n: nat)
    requires m <= n
    ensures Pow2(m) <= Pow2(n)
  {
    if m < n { Pow2Monotonic(m, n - 1); }
  }

  lemma Pow2Values()
    ensures Pow2(1) == 2 && Pow2(8) == 0x100 && Pow2(16) == 0x1_0000
    ensures Pow2(25) == 0x200_0000 && Pow2(26) == 0x400_0000
    ensures Pow2(30) == 0x4000_0000 && Pow2(31) == 0x8000_0000 && Pow2(32) == TWO_32
    ensures Pow2(64) == TWO_64
    ensures Pow2(121) == 0x200_0000_0000_0000_0000_0000_0000_0000
    ensures Pow2(126) == 0x4000_0000_0000_0000_0000_0000_0000_0000
    ensures Pow2(127) == 0x8000_0000_0000_0000_0000_0000_0000_0000
    ensures Pow2(128) == TWO_128
    ensures Pow2(129) == 0x2_0000_0000_0000_0000_0000_0000_0000_0000
  {
    Pow2Small();
    Pow2Add(32, 25);
    Pow2Add(32, 32);
    Pow2Add(64, 57);
    Pow2Add(64, 64);
    Pow2Add(126, 1);
    Pow2Add(126, 2);
  }

  lemma Pow2Small()
    ensures Pow2(0) == 1 && Pow2(1) == 2 && Pow2(2) == 4 && Pow2(8) == 0x100 && Pow2(16) == 0x1_0000
    ensures Pow2(25) == 0x200_0000 && Pow2(26) == 0x400_0000
    ensures Pow2(30) == 0x4000_0000 && Pow2(31) == 0x8000_0000 && Pow2(32) == 0x1_0000_0000
  {
    assert Pow2(4) == 16;
    assert Pow2(8) == 0x100;
    Pow2Add(8, 8);
    Pow2Add(16, 8);
    assert Pow2(25) == 2 * Pow2(24) && Pow2(26) == 2 * Pow2(25);
    Pow2Add(26, 4);
    assert Pow2(31) == 2 * Pow2(30) && Pow2(32) == 2 * Pow2(31);
  }

  lemma {:induction false} ShlIsTimesPow2(n: nat, a: nat)
    ensures Shl(n, a) == Pow2(n) * a
  {
    if n > 0 {
      ShlIsTimesPow2(n - 1, a);
      assert Pow2(n) * a == 2 * (Pow2(n - 1) * a);
    }
  }

  lemma {:induction false} ShlAdd(n: nat, a: nat, b: nat)
    ensures Shl(n, a + b) == Shl(n, a) + Shl(n, b)
  {
    if n > 0 { ShlAdd(n - 1, a, b); }
  }

  lemma {:induction false} ShlShl(m: nat, n: nat, a: nat)
    ensures Shl(m + n, a) == Shl(m, Shl(n, a))
  {
    if m > 0 { ShlShl(m - 1, n, a); }
  }

  lemma ShlEight(n: nat, a: nat)
    ensures Shl(n + 8, a) == 256 * Shl(n, a)
  {
    ShlShl(8, n, a);
    ShlIsTimesPow2(8, Shl(n, a));
    Pow2Small();
  }

  lemma {:induction false} ShlDouble(n: nat, a: nat)
    ensures Shl(n, 2 * a) == 2 * Shl(n, a)
  {
    if n > 0 { ShlDouble(n - 1, a); }
  }

  lemma {:induction false} ShrIsDivision(n: nat, a: nat)
    ensures Shr(n, a) == a / Pow2(n)
  {
    hide Pow2;
    if n == 0 {
      Pow2Small();
    } else {
      ShrIsDivision(n - 1, a / 2);
      HalfFirst(n, a);
    }
  }

  lemma HalfFirst(n: nat, a: nat)
    requires n > 0
    ensures a / Pow2(n) == a / 2 / Pow2(n - 1)
  {
    var m, p := a / 2, Pow2(n - 1);
    var q, r := m / p, m % p;
    assert m == p * q + r;
    Reassociate(2, p, q);
    Quotient(a, 2 * p, q, 2 * r + a % 2);
  }

  lemma {:induction false} LowOfSmall(n: nat, a: nat)
    requires a < Pow2(n)
    ensures Low(n, a) == a
  {
    if n > 0 { LowOfSmall(n - 1, a / 2); }
  }

  // One more digit.
  lemma {:induction false} LowNext(n: nat, a: nat)
    ensures Low(n + 1, a) == Low(n, a) + Shl(n, Shr(n, a) % 2)
  {
    if n > 0 {
      LowNext(n - 1, a / 2);
    }
  }

  // Bitwise or.
  function Or(a: nat, b: nat): nat
    decreases a + b
  {
    if a == 0 then b
    else if b == 0 then a
    else (if a % 2 == 1 || b % 2 == 1 then 1 else 0) + 2 * Or(a / 2, b / 2)
  }

  // Numbers that share no digit are joined by addition.
  lemma {:induction false} OrDisjoint(n: nat, low: nat, high: nat)
    requires low < Pow2(n)
    ensures Or(low, Shl(n, high)) == low + Shl(n, high)
  {
    if n > 0 && low != 0 && high != 0 {
      ShlPositive(n - 1, high);
      OrDisjoint(n - 1, low / 2, high);
    } else if high == 0 {
      ShlIsTimesPow2(n, 0);
    }
  }

  lemma {:induction false} ShlPositive(n: nat, a: nat)
    requires a > 0
    ensures Shl(n, a) > 0
  {
    if n > 0 { ShlPositive(n - 1, a); }
  }
}
