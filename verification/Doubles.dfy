// Positive binary64 numbers by their bit patterns, and rounding to the nearest, ties to even.
module Doubles {
  import opened Powers
  import opened Exponents

  const TWO_52: nat := 0x10_0000_0000_0000
  const TWO_53: nat := 0x20_0000_0000_0000

  // The pattern of infinity, which rounding takes for 2^1024.
  const INFINITY: nat := 0x7ff0_0000_0000_0000

  function Scaled(m: nat, e: int): real { m as real * Two(e) }

  // The sign is zero; an exponent field of zero is a subnormal number.
  function ValueOf(bits: nat): real {
    var e, f := bits / TWO_52, bits % TWO_52;
    if e == 0 then Scaled(f, -1074) else Scaled(TWO_52 + f, e - 1075)
  }

  function Distance(bits: nat, v: real): real {
    if v >= ValueOf(bits) then v - ValueOf(bits) else ValueOf(bits) - v
  }

  predicate Closer(bits: nat, other: nat, v: real) {
    || Distance(bits, v) < Distance(other, v)
    || (Distance(bits, v) == Distance(other, v) && bits % 2 == 0)
  }

  // The finite double that v rounds to.
  ghost predicate IsNearestDouble(bits: nat, v: real) {
    bits < INFINITY && forall c: nat :: c <= INFINITY && c != bits ==> Closer(bits, c, v)
  }

  // ----- patterns ascend as their values do -----

  lemma ScaleUp(a: real, b: real, u: real)
    requires u > 0.0
    ensures a < b ==> a * u < b * u
    ensures a <= b ==> a * u <= b * u
  {
  }

  lemma ScaledLess(m: nat, k: nat, e: int)
    requires m < k
    ensures Scaled(m, e) < Scaled(k, e)
  {
    hide Two;
    ScaleUp(m as real, k as real, Two(e));
  }

  lemma ScaledNext(m: nat, e: int)
    ensures Scaled(m, e + 1) == Scaled(2 * m, e)
  {
    hide Two;
    TwoNext(e);
    Twice(m as real, Two(e));
  }

  lemma Twice(a: real, u: real)
    ensures a * (2.0 * u) == (2.0 * a) * u
  {
  }

  lemma ScaledMonotonic(m: nat, d: int, e: int)
    requires d <= e
    ensures Scaled(m, d) <= Scaled(m, e)
  {
    hide Two;
    TwoMonotonic(d, e);
    ScaleUpRight(m as real, Two(d), Two(e));
  }

  lemma ScaleUpRight(k: real, a: real, b: real)
    requires k >= 0.0 && a <= b
    ensures k * a <= k * b
  {
  }

  // Between the first numbers of its binade and of the next.
  lemma Binade(c: nat)
    ensures var e := c / TWO_52;
            ValueOf(c) < Scaled(TWO_52, e - 1074) && (e > 0 ==> Scaled(TWO_52, e - 1075) <= ValueOf(c))
  {
    hide Scaled;
    var e, f := c / TWO_52, c % TWO_52;
    if e == 0 {
      ScaledLess(f, TWO_52, -1074);
    } else {
      ScaledNext(TWO_52, e - 1075);
      if f > 0 { ScaledLess(TWO_52, TWO_52 + f, e - 1075); }
      ScaledLess(TWO_52 + f, TWO_53, e - 1075);
    }
  }

  lemma Ascending(c: nat, d: nat)
    requires c < d
    ensures ValueOf(c) < ValueOf(d)
  {
    hide Scaled;
    var e, e' := c / TWO_52, d / TWO_52;
    if e == e' {
      var f, f' := c % TWO_52, d % TWO_52;
      ScaledLess(f, f', -1074);
      ScaledLess(TWO_52 + f, TWO_52 + f', e - 1075);
    } else {
      Binade(c);
      Binade(d);
      hide ValueOf;
      ScaledMonotonic(TWO_52, e - 1074, e' - 1075);
    }
  }

  // From the first pattern of a binade to the first of the next they are a grid.
  lemma OnGrid(b: nat, f: nat)
    requires b > 0 && f <= TWO_52
    ensures ValueOf(b * TWO_52 + f) == Scaled(TWO_52 + f, b - 1075)
  {
    hide Scaled;
    var c := b * TWO_52 + f;
    if f < TWO_52 {
      Quotient(c, TWO_52, b, f);
    } else {
      Quotient(c, TWO_52, b + 1, 0);
      ScaledNext(TWO_52, b - 1075);
    }
  }

  // ----- rounding -----

  // n is y to the nearest integer, ties to even.
  predicate IsRounded(y: real, n: int) {
    -0.5 <= y - n as real <= 0.5 && ((y - n as real == 0.5 || y - n as real == -0.5) ==> n % 2 == 0)
  }

  function Apart(a: real, b: real): real { if a >= b then a - b else b - a }

  lemma ApartScaled(a: real, b: real, u: real)
    requires u > 0.0
    ensures Apart(a * u, b * u) == Apart(a, b) * u
  {
    assert a * u - b * u == (a - b) * u;
    assert b * u - a * u == (b - a) * u;
    ScaleUp(a, b, u);
    ScaleUp(b, a, u);
  }

  lemma OtherInteger(y: real, n: int, j: int)
    requires IsRounded(y, n) && j != n
    ensures Apart(y, n as real) < Apart(y, j as real) ||
            (Apart(y, n as real) == Apart(y, j as real) && n % 2 == 0)
  {
    if j < n { assert j as real <= n as real - 1.0; } else { assert j as real >= n as real + 1.0; }
  }

  lemma DistanceIs(bits: nat, j: nat, y: real, u: real, v: real)
    requires u > 0.0 && ValueOf(bits) == j as real * u && v == y * u
    ensures Distance(bits, v) == Apart(y, j as real) * u
  {
    hide ValueOf;
    ApartScaled(y, j as real, u);
  }

  // The rounded significand of a normal number, packed, is the nearest double.
  lemma RoundedIsNearest(b: nat, y: real, n: nat, bits: nat)
    requires b > 0 && TWO_52 as real <= y < TWO_53 as real && IsRounded(y, n)
    requires TWO_52 <= n <= TWO_53 && bits == b * TWO_52 + (n - TWO_52) && bits < INFINITY
    ensures IsNearestDouble(bits, y * Two(b - 1075))
  {
    hide Two, ValueOf, Distance, IsRounded, Apart, Closer;
    var u, v := Two(b - 1075), y * Two(b - 1075);
    GridDistance(b, n, y, u, v);
    forall c: nat | c <= INFINITY && c != bits
      ensures Closer(bits, c, v)
    {
      if b * TWO_52 <= c <= b * TWO_52 + TWO_52 {
        GridPoint(b, y, n, bits, c, u, v);
      } else {
        OffGrid(b, y, n, bits, c, u, v);
      }
    }
  }

  // The pattern of j units in the binade of b.
  function OnGridAt(b: nat, j: nat): nat
    requires j >= TWO_52
  {
    b * TWO_52 + (j - TWO_52)
  }

  lemma GridDistance(b: nat, j: nat, y: real, u: real, v: real)
    requires b > 0 && TWO_52 <= j <= TWO_53 && u == Two(b - 1075) && v == y * u
    ensures Distance(OnGridAt(b, j), v) == Apart(y, j as real) * u
  {
    hide Two, ValueOf, Distance, Apart;
    OnGrid(b, j - TWO_52);
    DistanceIs(OnGridAt(b, j), j, y, u, v);
  }

  lemma EvenPattern(b: nat, n: nat)
    requires n >= TWO_52
    ensures OnGridAt(b, n) % 2 == 0 <==> n % 2 == 0
  {
    var half: nat := 0x8_0000_0000_0000;
    assert OnGridAt(b, n) == 2 * (b * half - half) + n;
  }

  lemma GridPoint(b: nat, y: real, n: nat, bits: nat, c: nat, u: real, v: real)
    requires b > 0 && IsRounded(y, n) && n >= TWO_52 && bits == OnGridAt(b, n) && c != bits
    requires u == Two(b - 1075) && v == y * u && Distance(bits, v) == Apart(y, n as real) * u
    requires b * TWO_52 <= c <= b * TWO_52 + TWO_52
    ensures Closer(bits, c, v)
  {
    hide Two, Distance, IsRounded, Apart;
    var j := c - b * TWO_52 + TWO_52;
    GridDistance(b, j, y, u, v);
    OtherInteger(y, n, j);
    EvenPattern(b, n);
    ScaleUp(Apart(y, n as real), Apart(y, j as real), u);
  }

  // Beyond the binade its edge is nearer, and no farther than the rounded number.
  lemma OffGrid(b: nat, y: real, n: nat, bits: nat, c: nat, u: real, v: real)
    requires b > 0 && TWO_52 as real <= y < TWO_53 as real && IsRounded(y, n)
    requires u == Two(b - 1075) && v == y * u && Distance(bits, v) == Apart(y, n as real) * u
    requires c < b * TWO_52 || c > b * TWO_52 + TWO_52
    ensures Closer(bits, c, v)
  {
    hide Two, IsRounded, Apart, Distance;
    var near: nat := if c < b * TWO_52 then TWO_52 else TWO_53;
    var edge := OnGridAt(b, near);
    GridDistance(b, near, y, u, v);
    EdgeIsNearer(b, c, near, y, u, v);
    NoFarther(y, n, near);
    ScaleUp(Apart(y, n as real), Apart(y, near as real), u);
    assert Distance(bits, v) <= Distance(edge, v);
  }

  lemma NoFarther(y: real, n: int, j: int)
    requires IsRounded(y, n)
    ensures Apart(y, n as real) <= Apart(y, j as real)
  {
    hide IsRounded, Apart;
    if j != n { OtherInteger(y, n, j); }
  }

  lemma EdgeIsNearer(b: nat, c: nat, near: nat, y: real, u: real, v: real)
    requires b > 0 && TWO_52 as real <= y < TWO_53 as real && u == Two(b - 1075) && v == y * u
    requires (c < b * TWO_52 && near == TWO_52) || (c > b * TWO_52 + TWO_52 && near == TWO_53)
    ensures Distance(OnGridAt(b, near), v) < Distance(c, v)
  {
    hide Two, ValueOf, Scaled;
    var edge := OnGridAt(b, near);
    OnGrid(b, near - TWO_52);
    ScaledIs(near, b - 1075);
    if c < edge { Ascending(c, edge); } else { Ascending(edge, c); }
    ScaleUp(TWO_52 as real, y, u);
    ScaleUp(y, TWO_53 as real, u);
  }

  lemma ScaledIs(m: nat, e: int)
    ensures Scaled(m, e) == m as real * Two(e)
  {
  }

  // ----- one answer, and the same one between two numbers that share it -----

  lemma CloserBetween(bits: nat, c: nat, a: real, b: real, v: real)
    requires a < v < b && c != bits && Closer(bits, c, a) && Closer(bits, c, b)
    ensures Distance(bits, v) < Distance(c, v)
  {
    hide ValueOf;
    if c < bits { Ascending(c, bits); } else { Ascending(bits, c); }
  }

  lemma NearestBetween(bits: nat, a: real, b: real, v: real)
    requires IsNearestDouble(bits, a) && IsNearestDouble(bits, b) && a < v < b
    ensures IsNearestDouble(bits, v)
  {
    hide Closer;
    forall c: nat | c <= INFINITY && c != bits
      ensures Closer(bits, c, v)
    {
      CloserBetween(bits, c, a, b, v);
      CloserIs(bits, c, v);
    }
  }

  lemma CloserIs(bits: nat, c: nat, v: real)
    requires Distance(bits, v) < Distance(c, v)
    ensures Closer(bits, c, v)
  {
  }

  // No number rounds to two doubles.
  lemma NearestIsOnly(a: nat, b: nat, v: real)
    requires IsNearestDouble(a, v) && IsNearestDouble(b, v)
    ensures a == b
  {
    if a < b {
      TwoNearest(a, b, v);
    } else if b < a {
      TwoNearest(b, a, v);
    }
  }

  lemma TwoNearest(a: nat, b: nat, v: real)
    requires IsNearestDouble(a, v) && IsNearestDouble(b, v)
    ensures a >= b
  {
    hide ValueOf;
    if a < b {
      var c := a + 1;
      assert Closer(a, b, v) && Closer(b, a, v) && (c != b ==> Closer(a, c, v));
      Ascending(a, b);
      if c < b {
        Ascending(a, c);
        Ascending(c, b);
        MiddleIsCloser(a, c, b, v);
      }
      assert false;
    }
  }

  lemma MiddleIsCloser(a: nat, c: nat, b: nat, v: real)
    requires ValueOf(a) < ValueOf(c) < ValueOf(b) && Distance(a, v) == Distance(b, v)
    ensures Distance(c, v) < Distance(a, v)
  {
    hide ValueOf;
  }

  // ----- some patterns -----

  lemma Patterns()
    ensures ValueOf(0) == 0.0 && ValueOf(0x3ff0_0000_0000_0000) == 1.0 && ValueOf(0x4000_0000_0000_0000) == 2.0
    ensures ValueOf(0x3ff8_0000_0000_0000) == 1.5
    ensures ValueOf(1) == Two(-1074) && ValueOf(0x0010_0000_0000_0000) == Two(-1022) && ValueOf(INFINITY) == Two(1024)
  {
    hide Two;
    TwoAtSmall();
    ScaledByPower(-52); ScaledByPower(-1022 - 52); ScaledByPower(1024 - 52); ScaledByPower(-51);
  }

  lemma TwoAtSmall()
    ensures Two(0) == 1.0 && Two(1) == 2.0 && Two(-1) == 0.5
  {
  }

  lemma ScaledByPower(e: int)
    ensures TWO_52 as real * Two(e) == Two(e + 52)
  {
    hide Two;
    TwoAddNat(e, 52);
    TwoAt52();
  }

  lemma TwoAt52()
    ensures Two(52) == TWO_52 as real
  {
    hide Two;
    TwoZero();
    TwoNext(0); TwoNext(1); TwoNext(2); TwoNext(3);
    TwoAddNat(4, 4); TwoAddNat(8, 8); TwoAddNat(16, 16); TwoAddNat(32, 16); TwoAddNat(48, 4);
  }

  lemma TenAtSmall()
    ensures Power(10, 0) == 1.0 && Power(10, 1) == 10.0 && Power(10, 3) == 1000.0 && Power(10, -1) == 0.1 && Power(10, -2) == 0.01
  {
  }
}
