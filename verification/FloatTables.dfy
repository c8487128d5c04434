// The power tables behind decimal float parsing and printing, as
// scripts/generate_float_decimal_tables.py computes them.
module FloatTables {
  import opened Powers
  import opened Exponents

  const TWO_63: nat := 0x8000_0000_0000_0000
  const TWO_127: nat := 0x8000_0000_0000_0000_0000_0000_0000_0000

  // ----- the binary exponent of a power of ten -----

  function FloorLog2Pow10(q: int): int {
    if q >= 0 then BitLength(Pow(10, q)) - 1 else -BitLength(Pow(10, -q))
  }

  lemma {:induction false} NoPowerOfTwo(b: nat, n: nat, m: nat)
    requires (b == 5 || b == 10) && n > 0
    ensures Pow(b, n) != Pow2(m)
  {
    NotDivisibleByFive(m);
    var x := Pow(b, n - 1);
    assert Pow(b, n) == 5 * (if b == 5 then x else 2 * x);
  }

  lemma {:induction false} NotDivisibleByFive(m: nat)
    ensures Pow2(m) % 5 != 0
  {
    if m > 0 { NotDivisibleByFive(m - 1); }
  }

  // The bit length of b^n, between two powers of two and on neither from n = 1.
  lemma BitLengthOfPower(b: nat, n: nat)
    requires b == 5 || b == 10
    ensures var l := BitLength(Pow(b, n));
            l > 0 && Pow2(l - 1) <= Pow(b, n) < Pow2(l) && (n > 0 ==> Pow2(l - 1) < Pow(b, n))
  {
    BitLengthBounds(Pow(b, n));
    if n > 0 { NoPowerOfTwo(b, n, BitLength(Pow(b, n)) - 1); }
  }

  lemma TwoIsPow2(n: int)
    requires n >= 0
    ensures Two(n) == Pow2(n) as real && Two(-n) == 1.0 / Pow2(n) as real
  {
    Pow2IsPow(n);
  }

  lemma Reciprocals(x: nat, y: nat)
    requires 0 < x
    ensures x <= y ==> 1.0 / y as real <= 1.0 / x as real
    ensures x < y ==> 1.0 / y as real < 1.0 / x as real
  {
  }

  // Between two powers of two, for b^n and for b^-n.
  lemma FloorOfPower(b: nat, n: int, l: int)
    requires (b == 5 || b == 10) && n >= 0 && l == BitLength(Pow(b, n))
    ensures IsFloorLog2(l - 1, Power(b, n))
    ensures n > 0 ==> IsFloorLog2(-l, Power(b, -n))
  {
    BitLengthOfPower(b, n);
    TwoIsPow2(l);
    TwoIsPow2(l - 1);
    hide Pow, Pow2, Two;
    var t := Pow(b, n);
    Reciprocals(t, Pow2(l));
    Reciprocals(Pow2(l - 1), t);
    assert -l + 1 == -(l - 1);
  }

  // floor(log2(10^q)), exactly, for every q.
  lemma FloorLog2Pow10IsExact(q: int)
    ensures IsFloorLog2(FloorLog2Pow10(q), Power(10, q))
  {
    hide Pow, BitLength, IsFloorLog2, Power;
    var n := if q >= 0 then q else -q;
    FloorOfPower(10, n, BitLength(Pow(10, n)));
  }

  // And the only floor there is.
  lemma FloorLog2Pow10IsOnly(q: int, m: int)
    requires IsFloorLog2(m, Power(10, q))
    ensures m == FloorLog2Pow10(q)
  {
    hide IsFloorLog2, Power, FloorLog2Pow10;
    FloorLog2Pow10IsExact(q);
    FloorLog2Unique(m, FloorLog2Pow10(q), Power(10, q));
  }

  // The exponent estimate of the C code.
  function Estimate(q: int): int { (217706 * q) / 65536 }

  // 217706/65536 lies between log2(10) and every fraction above log2(10) with a denominator below 643.
  lemma BetweenConvergents(p: int, q: int)
    requires 146 * p > 485 * q && q < 643
    ensures 65536 * p > 217706 * q
  {
    var a, b := 146 * p - 485 * q, 1651 * q - 497 * p;
    assert q == 497 * a + 146 * b;
    assert b < 1;
  }

  // 485/146 < l/n and (l-1)/n < 2136/643 for the bit length l of 10^n.
  lemma ConvergentBounds(n: int, l: int)
    requires n >= 0 && l == BitLength(Pow(10, n))
    ensures 146 * l > 485 * n
    ensures n > 0 ==> 643 * (l - 1) < 2136 * n
    ensures n == 0 ==> l == 1
  {
    hide Pow, Pow2, BitLength;
    BitLengthOfPower(10, n);
    TenTo146();
    RatioAbove(l, n, 485, 146);
    if n > 0 {
      TenTo643();
      RatioBelow(l - 1, n, 2136, 643);
    } else {
      BitLengthOfOne(l);
    }
  }

  lemma BitLengthOfOne(l: int)
    requires l == BitLength(Pow(10, 0))
    ensures l == 1
  {
  }

  // The estimate is exact for every decimal exponent nearer to zero than 643, which takes in -325..308.
  lemma EstimateIsExact(q: int)
    requires -643 < q < 643
    ensures Estimate(q) == FloorLog2Pow10(q)
  {
    hide Pow, BitLength;
    var n := if q >= 0 then q else -q;
    var l := BitLength(Pow(10, n));
    ConvergentBounds(n, l);
    BetweenConvergents(l, n);
    var m := if q >= 0 then l - 1 else -l;
    var r := 217706 * q - 65536 * m;
    assert 217706 * q == 65536 * m + r && 0 <= r < 65536;
  }

  // And 643 is where it first fails, on both sides.
  lemma EstimateFailsAt643()
    ensures Estimate(643) == FloorLog2Pow10(643) + 1
    ensures Estimate(-643) == FloorLog2Pow10(-643) - 1
  {
    hide Pow, BitLength;
    ConvergentBounds(643, BitLength(Pow(10, 643)));
  }

  // ----- Grisu: 10^k as f * 2^e with a 64-bit f -----

  // f is nearest to 10^k / 2^e.
  predicate IsNearest(f: nat, e: int, k: int) {
    -0.5 <= Power(10, k) / Two(e) - f as real <= 0.5
  }

  lemma DivIs(x: real, y: real, z: real)
    requires y != 0.0 && x == z * y
    ensures x / y == z
  {
  }

  lemma RoundedQuotient(num: nat, den: nat, f: nat, df: nat)
    requires den > 0 && f == (2 * num + den) / (2 * den) && df == den * f
    ensures 2 * df <= 2 * num + den && 2 * num <= 2 * df + den
  {
    assert 2 * num + den == (2 * den) * f + (2 * num + den) % (2 * den);
    assert (2 * den) * f == 2 * df;
  }

  lemma NearestOfQuotient(num: nat, den: nat, f: nat, x: real)
    requires den > 0 && f == (2 * num + den) / (2 * den) && x * den as real == num as real
    ensures -0.5 <= x - f as real <= 0.5
  {
    var df := den * f;
    RoundedQuotient(num, den, f, df);
    RealProduct(den, f, df);
    ScaledBound(den as real, x, f as real, num as real, df as real);
  }

  lemma RealProduct(a: nat, b: nat, ab: nat)
    requires ab == a * b
    ensures ab as real == a as real * b as real
  {
  }

  lemma ScaledBound(d: real, x: real, f: real, n: real, df: real)
    requires d > 0.0 && x * d == n && df == d * f && -d <= 2.0 * n - 2.0 * df <= d
    ensures -0.5 <= x - f <= 0.5
  {
    var y := 2.0 * (x - f);
    assert y * d == 2.0 * n - 2.0 * df;
    Cancel(1.0, y, d);
    Cancel(y, -1.0, d);
  }

  lemma DivisionLaws(t: real, p: real)
    requires t > 0.0 && p > 0.0
    ensures t * p == t / (1.0 / p)
    ensures p * (1.0 / t) == (1.0 / t) / (1.0 / p)
    ensures (1.0 / t / p) * (t * p) == 1.0
  {
    assert (1.0 / p) * p == 1.0 && (1.0 / t) * t == 1.0;
    DivIs(t, 1.0 / p, t * p);
    DivIs(1.0 / t, 1.0 / p, p * (1.0 / t));
    assert (1.0 / t / p) * p == 1.0 / t;
  }

  // num/den is 10^k / 2^e.
  lemma QuotientIs(k: int, e: int, num: nat, den: nat)
    requires num == (if k >= 0 then Pow(10, k) else 1) * (if e <= 0 then Pow2(-e) else 1)
    requires den == (if k >= 0 then 1 else Pow(10, -k)) * (if e <= 0 then 1 else Pow2(e))
    ensures den > 0 && (Power(10, k) / Two(e)) * den as real == num as real
  {
    hide Pow, Pow2, Two, Power;
    var i := if e <= 0 then -e else e;
    var t, p := Pow(10, if k >= 0 then k else -k), Pow2(i);
    TwoIsPow2(i);
    PowerIs(k);
    var tp := t * p;
    RealProduct(t, p, tp);
    QuotientCases(k, e, t, p, tp, num, den, Power(10, k), Two(e));
  }

  lemma PowerIs(k: int)
    ensures Power(10, k) == if k >= 0 then Pow(10, k) as real else 1.0 / Pow(10, -k) as real
  {
  }

  lemma QuotientCases(k: int, e: int, t: nat, p: nat, tp: nat, num: nat, den: nat, x: real, y: real)
    requires t > 0 && p > 0 && tp == t * p && tp as real == t as real * p as real
    requires num == (if k >= 0 then t else 1) * (if e <= 0 then p else 1)
    requires den == (if k >= 0 then 1 else t) * (if e <= 0 then 1 else p)
    requires x == if k >= 0 then t as real else 1.0 / t as real
    requires y == if e <= 0 then 1.0 / p as real else p as real
    ensures den > 0 && y > 0.0 && (x / y) * den as real == num as real
  {
    DivisionLaws(t as real, p as real);
    if k >= 0 && e > 0 {
      assert (t as real / p as real) * p as real == t as real;
    } else if k < 0 && e <= 0 {
      Reciprocated(p as real, t as real);
    } else if k < 0 {
      assert den == tp;
    }
  }

  lemma Reciprocated(p: real, t: real)
    requires t > 0.0
    ensures (p * (1.0 / t)) * t == p
  {
    assert (1.0 / t) * t == 1.0;
    assert (p * (1.0 / t)) * t == p * ((1.0 / t) * t);
  }

  lemma TwoLiterals()
    ensures Two(63) == TWO_63 as real && Two(64) == TWO_64 as real
  {
    TwoIsPow2(63);
    TwoIsPow2(64);
    Pow2Values();
    hide Two, Pow2;
    Pow2Add(32, 31);
  }

  // With the exact exponent, 2^63 <= num/den < 2^64.
  lemma QuotientBounds(k: int, e: int, x: real)
    requires e == FloorLog2Pow10(k) - 63 && x * Two(e) == Power(10, k)
    ensures TWO_63 as real <= x < TWO_64 as real
  {
    hide Two, Power, FloorLog2Pow10;
    FloorLog2Pow10IsExact(k);
    TwoAddNat(e, 63);
    TwoAddNat(e, 64);
    TwoLiterals();
    Cancel(x, TWO_63 as real, Two(e));
    Cancel(TWO_64 as real, x, Two(e));
  }

  lemma Cancel(x: real, y: real, c: real)
    requires c > 0.0
    ensures x * c >= y * c ==> x >= y
    ensures x * c > y * c ==> x > y
  {
  }

  // f and e are the 64-bit power of ten nearest to 10^k.
  predicate IsCachedPower(f: nat, e: int, k: int) {
    && TWO_63 <= f < TWO_64 && IsNearest(f, e, k)
    && (e == FloorLog2Pow10(k) - 63 || (e == FloorLog2Pow10(k) - 62 && f == TWO_63))
  }

  // From the floor of k * log2(10), for every k.
  method CachedPowerFrom(k: int, floor: int) returns (f: nat, e: int)
    ensures floor == FloorLog2Pow10(k) ==> IsCachedPower(f, e, k)
  {
    hide Pow, Pow2, Two, Power, FloorLog2Pow10, IsNearest;
    e := floor - 63;
    var num, den;
    if k >= 0 {
      num, den := Pow(10, k), 1;
    } else {
      num, den := 1, Pow(10, -k);
    }
    if e <= 0 {
      num := num * Pow2(-e);
    } else {
      den := den * Pow2(e);
    }
    QuotientIs(k, e, num, den);
    f := (2 * num + den) / (2 * den);
    if floor == FloorLog2Pow10(k) {
      Settled(k, e, num, den, f);
    }
    if f >= TWO_64 {
      f := f / 2;
      e := e + 1;
    }
  }

  // The rounded quotient, and what halving it at 2^64 does.
  lemma Settled(k: int, e: int, num: nat, den: nat, f: nat)
    requires e == FloorLog2Pow10(k) - 63 && den > 0 && f == (2 * num + den) / (2 * den)
    requires (Power(10, k) / Two(e)) * den as real == num as real
    ensures TWO_63 <= f <= TWO_64 && IsNearest(f, e, k)
    ensures f == TWO_64 ==> IsNearest(TWO_63, e + 1, k)
  {
    hide Two, Power, FloorLog2Pow10;
    var x := Power(10, k) / Two(e);
    NearestOfQuotient(num, den, f, x);
    QuotientBounds(k, e, x);
    Halved(k, e, x);
  }

  lemma Halved(k: int, e: int, x: real)
    requires x == Power(10, k) / Two(e)
    ensures Power(10, k) / Two(e + 1) == x / 2.0
  {
    TwoNext(e);
    hide Two, Power;
    assert x * Two(e) == Power(10, k);
    DivIs(Power(10, k), Two(e + 1), x / 2.0);
  }

  // ----- the floor the script takes, of a product of doubles -----

  // math.log2(10) is this over 2^51.
  const LOG2_TEN: nat := 7480317065143153
  const TWO_51: nat := 0x8_0000_0000_0000

  // How many units come nearest to x, ties to even.
  function NearestCount(x: nat, unit: nat): nat
    requires unit > 0
  {
    var q, r := x / unit, x % unit;
    if 2 * r > unit || (2 * r == unit && q % 2 == 1) then q + 1 else q
  }

  // x in 53 significant binary digits.
  function RoundDouble(x: nat): nat {
    var l := BitLength(x);
    if l <= 53 then x else NearestCount(x, Pow2(l - 53)) * Pow2(l - 53)
  }

  // math.floor(k * math.log2(10))
  function DoubleFloor(k: int): int {
    if k >= 0 then RoundDouble(k * LOG2_TEN) / TWO_51 else (0 - RoundDouble(-k * LOG2_TEN)) / TWO_51
  }

  lemma RoundedBy(x: nat, unit: nat)
    requires unit > 0
    ensures var y := NearestCount(x, unit) * unit; 2 * y <= 2 * x + unit && 2 * x <= 2 * y + unit
  {
    var q, r := x / unit, x % unit;
    assert x == q * unit + r;
    assert (q + 1) * unit == q * unit + unit;
  }

  // A number below 2^63 moves by at most 2^9.
  lemma RoundDoubleError(x: nat)
    requires x < TWO_63
    ensures x <= RoundDouble(x) + 512 && RoundDouble(x) <= x + 512
  {
    hide Pow2, BitLength, NearestCount;
    var l := BitLength(x);
    if l > 53 {
      BitLengthBelow63(x);
      Pow2Monotonic(l - 53, 10);
      TenDigits();
      RoundedBy(x, Pow2(l - 53));
    }
  }

  lemma TenDigits()
    ensures Pow2(10) == 1024
  {
  }

  lemma BitLengthBelow63(x: nat)
    requires x < TWO_63
    ensures BitLength(x) <= 63
  {
    hide Pow2, BitLength;
    if BitLength(x) > 63 {
      BitLengthOfZero();
      BitLengthBounds(x);
      Pow2Monotonic(63, BitLength(x) - 1);
      Pow2At63();
    }
  }

  lemma BitLengthOfZero()
    ensures BitLength(0) == 0
  {
  }

  lemma Pow2At63()
    ensures Pow2(63) == TWO_63
  {
    Pow2Values();
    hide Pow2;
    Pow2Add(32, 31);
  }

  // Neither the constant nor the rounding comes near the next integer before the convergents do.
  lemma RoundedBetween(n: int, l: int, r: int)
    requires 0 < n < 643 && 146 * l > 485 * n && 643 * (l - 1) < 2136 * n
    requires n * LOG2_TEN - 512 <= r <= n * LOG2_TEN + 512
    ensures (l - 1) * TWO_51 < r < l * TWO_51
  {
  }

  // The script's floor is the exact one for every decimal exponent nearer to zero than 643.
  lemma DoubleFloorIsExact(k: int)
    requires -643 < k < 643
    ensures DoubleFloor(k) == FloorLog2Pow10(k)
  {
    hide Pow, BitLength, RoundDouble;
    var n := if k >= 0 then k else -k;
    var l := BitLength(Pow(10, n));
    ConvergentBounds(n, l);
    var r := RoundDouble(n * LOG2_TEN);
    RoundDoubleError(n * LOG2_TEN);
    if n > 0 {
      RoundedBetween(n, l, r);
      Quotient(r, TWO_51, l - 1, r - (l - 1) * TWO_51);
      Quotient(-r, TWO_51, -l, l * TWO_51 - r);
    } else {
      RoundDoubleZero();
    }
  }

  lemma RoundDoubleZero()
    ensures RoundDouble(0) == 0
  {
  }

  method GrisuCachedPower(k: int) returns (f: nat, e: int)
    ensures DoubleFloor(k) == FloorLog2Pow10(k) ==> IsCachedPower(f, e, k)
    ensures -643 < k < 643 ==> IsCachedPower(f, e, k)
  {
    hide DoubleFloor, FloorLog2Pow10, IsCachedPower;
    if -643 < k < 643 {
      DoubleFloorIsExact(k);
    }
    f, e := CachedPowerFrom(k, DoubleFloor(k));
  }

  // The table row of a decimal exponent.
  predicate IsRow(row: (int, nat, int), k: int) {
    row.0 == k && (DoubleFloor(k) == FloorLog2Pow10(k) ==> IsCachedPower(row.1, row.2, k))
  }

  function DecimalExponent(low: int, distance: nat, i: nat): int { low + i * distance }

  // The list of cached powers: from decimal exponent low to high in steps.
  method GrisuPowers(low: int, high: int, distance: nat) returns (powers: seq<(int, nat, int)>)
    requires distance > 0
    ensures low <= high ==> |powers| == (high - low) / distance + 1
    ensures low > high ==> powers == []
    ensures forall i :: 0 <= i < |powers| ==> IsRow(powers[i], DecimalExponent(low, distance, i))
  {
    hide IsCachedPower, DecimalExponent, DoubleFloor, FloorLog2Pow10;
    powers := [];
    var k := low;
    ExponentStep(low, distance, 0);
    while k <= high
      invariant k == DecimalExponent(low, distance, |powers|) && (powers != [] ==> k - distance <= high)
      invariant low <= high || powers == []
      invariant forall i :: 0 <= i < |powers| ==> IsRow(powers[i], DecimalExponent(low, distance, i))
      decreases high - k
    {
      var f, e := GrisuCachedPower(k);
      ExponentStep(low, distance, |powers|);
      powers := powers + [(k, f, e)];
      k := k + distance;
    }
    if low <= high {
      ExponentLast(low, distance, |powers|, high);
    }
  }

  // The table: decimal exponents -348 to 340 in steps of 8.
  method EmittedGrisuPowers() returns (powers: seq<(int, nat, int)>)
    ensures |powers| == 87
    ensures forall i :: 0 <= i < 87 ==>
              powers[i].0 == -348 + 8 * i && IsCachedPower(powers[i].1, powers[i].2, -348 + 8 * i)
  {
    hide IsCachedPower, DoubleFloor, FloorLog2Pow10;
    powers := GrisuPowers(-348, 340, 8);
    forall i | 0 <= i < 87
      ensures powers[i].0 == -348 + 8 * i && IsCachedPower(powers[i].1, powers[i].2, -348 + 8 * i)
    {
      assert DecimalExponent(-348, 8, i) == -348 + 8 * i;
      assert IsRow(powers[i], -348 + 8 * i);
      DoubleFloorIsExact(-348 + 8 * i);
    }
  }

  lemma ExponentStep(low: int, distance: nat, i: nat)
    ensures DecimalExponent(low, distance, 0) == low
    ensures DecimalExponent(low, distance, i + 1) == DecimalExponent(low, distance, i) + distance
  {
  }

  lemma ExponentLast(low: int, distance: nat, n: nat, high: int)
    requires distance > 0 && low <= high && n > 0
    requires DecimalExponent(low, distance, n) - distance <= high < DecimalExponent(low, distance, n)
    ensures n == (high - low) / distance + 1
  {
    assert n * distance == (n - 1) * distance + distance;
    StepCount(high - low, distance, n);
  }

  lemma StepCount(span: nat, distance: nat, n: nat)
    requires distance > 0 && n > 0 && (n - 1) * distance <= span < n * distance
    ensures n == span / distance + 1
  {
    assert n * distance == (n - 1) * distance + distance;
    Quotient(span, distance, n - 1, span - (n - 1) * distance);
  }

  // ----- 128-bit powers of five -----

  // v is 5^q * 2^s cut to an integer of exactly 128 bits, never rounded up.
  predicate IsTruncation(v: nat, s: int, q: int) {
    TWO_127 <= v < TWO_128 && v as real <= Power(5, q) * Two(s) < v as real + 1.0
  }

  ghost predicate IsEntry(v: nat, q: int) { exists s :: IsTruncation(v, s, q) }

  lemma EntryOf(v: nat, s: int, q: int)
    requires IsTruncation(v, s, q)
    ensures IsEntry(v, q)
  {
  }

  // 5^q without its low shift bits, in 127 bits, and whole when it fits.
  predicate IsScaled(scaled: nat, shift: nat, q: nat) {
    && scaled < TWO_127 && (shift > 0 ==> 2 * scaled >= TWO_127)
    && scaled * Pow2(shift) <= Pow(5, q) < (scaled + 1) * Pow2(shift)
  }

  // 2^shift / 5^q from below, by at most one unit, in exactly 128 bits.
  predicate IsReciprocal(recip: nat, shift: nat, q: nat) {
    && TWO_127 <= recip < TWO_128
    && recip * Pow(5, q) < Pow2(shift) <= (recip + 1) * Pow(5, q)
  }

  lemma FloorDivide(a: nat, b: nat, low: nat, high: nat)
    requires b > 0
    ensures var v := a / b;
            && v * b <= a < (v + 1) * b
            && (low * b <= a ==> low <= v) && (a < high * b ==> v < high)
  {
    var v := a / b;
    assert a == v * b + a % b;
    assert v < low ==> (v + 1) * b <= low * b;
    assert v >= high ==> high * b <= v * b;
  }

  lemma RealQuotient(a: nat, b: nat, v: nat, x: real)
    requires b > 0 && v * b <= a < (v + 1) * b && x * b as real == a as real
    ensures v as real <= x < v as real + 1.0
  {
    var rest, width, z := a - v * b, b as real, x - v as real;
    RealProduct(v, b, v * b);
    assert z * width == x * width - v as real * width;
    assert rest as real == a as real - (v * b) as real;
    assert rest < b;
    UnitInterval(z, width, rest as real);
  }

  lemma UnitInterval(z: real, width: real, rest: real)
    requires z * width == rest && 0.0 <= rest < width
    ensures 0.0 <= z < 1.0
  {
  }

  lemma Pow2At127()
    ensures Pow2(127) == TWO_127 && Pow2(128) == TWO_128
  {
    Pow2Values();
  }

  // 5^q shifted up to 128 bits.
  lemma ShiftedUp(q: nat, n: int)
    requires n == BitLength(Pow(5, q)) <= 128
    ensures IsTruncation(Pow(5, q) * Pow2(128 - n), 128 - n, q)
  {
    hide Pow, Pow2, BitLength, Two;
    BitLengthOfPower(5, q);
    Pow2At127();
    var f, p := Pow(5, q), Pow2(128 - n);
    Pow2Add(n - 1, 128 - n);
    Pow2Add(n, 128 - n);
    MulMonotonic(Pow2(n - 1), f, p, p);
    MulMonotonic(f, Pow2(n), p, p);
    TwoIsPow2(128 - n);
    RealProduct(f, p, f * p);
  }

  // 5^q cut down to 128 bits.
  lemma ShiftedDown(q: nat, n: int)
    requires n == BitLength(Pow(5, q)) > 128
    ensures IsTruncation(Pow(5, q) / Pow2(n - 128), 128 - n, q)
  {
    hide Pow, Pow2, BitLength, Two;
    BitLengthOfPower(5, q);
    Pow2At127();
    var f, p := Pow(5, q), Pow2(n - 128);
    Pow2Add(127, n - 128);
    Pow2Add(128, n - 128);
    FloorDivide(f, p, TWO_127, TWO_128);
    CutReal(f, p, q, n - 128);
  }

  // 2^(z+127) divided by 5^n, for the exponent -n.
  lemma Divided(n: int, z: int)
    requires n > 0 && z == BitLength(Pow(5, n))
    ensures z > 0 && IsTruncation(Pow2(z + 127) / Pow(5, n), z + 127, -n)
  {
    hide Pow, Pow2, BitLength, Two;
    BitLengthOfPower(5, n);
    Pow2At127();
    var f, p := Pow(5, n), Pow2(z + 127);
    Pow2Add(127, z);
    Pow2Add(128, z - 1);
    MulMonotonic(f, Pow2(z), TWO_127, TWO_127);
    MulMonotonic(Pow2(z - 1), f, TWO_128, TWO_128);
    FloorDivide(p, f, TWO_127, TWO_128);
    TwoIsPow2(z + 127);
    Reciprocated(p as real, f as real);
    RealQuotient(p, f, p / f, (1.0 / f as real) * p as real);
  }

  // The entry of the direct Eisel-Lemire table, for every decimal exponent.
  method EiselLemirePower(q: int) returns (v: nat)
    ensures IsEntry(v, q)
  {
    hide Pow, Pow2, BitLength, IsTruncation, IsEntry;
    if q >= 0 {
      var p5 := Pow(5, q);
      var n := BitLength(p5);
      if n <= 128 {
        ShiftedUp(q, n);
        v := p5 * Pow2(128 - n);
      } else {
        ShiftedDown(q, n);
        v := p5 / Pow2(n - 128);
      }
      EntryOf(v, 128 - n, q);
    } else {
      var p5 := Pow(5, -q);
      var z := BitLength(p5);
      Divided(-q, z);
      v := Pow2(z + 127) / p5;
      EntryOf(v, z + 127, q);
    }
  }

  // The table, with the estimate check the generator makes for each exponent.
  method EiselLemirePowers(low: int, high: int) returns (values: seq<nat>)
    requires -643 < low <= high + 1 <= 643
    ensures |values| == high + 1 - low
    ensures forall i :: 0 <= i < |values| ==> IsEntry(values[i], low + i)
    ensures forall q :: low <= q <= high ==> Estimate(q) == FloorLog2Pow10(q)
  {
    hide IsEntry, FloorLog2Pow10, Estimate;
    values := [];
    for q := low to high + 1
      invariant |values| == q - low
      invariant forall i :: 0 <= i < |values| ==> IsEntry(values[i], low + i)
      invariant forall j :: low <= j < q ==> Estimate(j) == FloorLog2Pow10(j)
    {
      var v := EiselLemirePower(q);
      EstimateIsExact(q);
      values := values + [v];
    }
  }

  // The entry for an exponent is the only one there can be.
  lemma TruncationUnique(v: nat, s: int, w: nat, t: int, q: int)
    requires IsTruncation(v, s, q) && IsTruncation(w, t, q)
    ensures v == w && s == t
  {
    hide Two, Power;
    if s < t {
      TooLarge(v, s, t, q);
      assert false;
    } else if t < s {
      TooLarge(w, t, s, q);
      assert false;
    }
  }

  lemma TooLarge(v: nat, s: int, t: int, q: int)
    requires IsTruncation(v, s, q) && s < t
    ensures Power(5, q) * Two(t) >= TWO_128 as real
  {
    hide Two, Power;
    TwoMonotonic(s + 1, t);
    TwoNext(s);
    AtLeastTwice(Power(5, q), Two(s), Two(t), TWO_127 as real);
  }

  lemma AtLeastTwice(p: real, a: real, b: real, low: real)
    requires p > 0.0 && b >= 2.0 * a && p * a >= low
    ensures p * b >= 2.0 * low
  {
    assert p * b - 2.0 * (p * a) == p * (b - 2.0 * a);
  }

  lemma Scaled(q: nat, n: int)
    requires n == BitLength(Pow(5, q))
    ensures n <= 127 ==> IsScaled(Pow(5, q) / Pow2(0), 0, q)
    ensures n > 127 ==> IsScaled(Pow(5, q) / Pow2(n - 127), n - 127, q)
  {
    hide Pow, Pow2, BitLength;
    BitLengthOfPower(5, q);
    Pow2At127();
    Pow2Zero();
    if n > 127 {
      Pow2Add(126, 1);
      Pow2Add(126, n - 127);
      Pow2Add(127, n - 127);
      FloorDivide(Pow(5, q), Pow2(n - 127), Pow2(126), TWO_127);
    } else {
      Pow2Monotonic(n, 127);
    }
  }

  lemma Pow2Zero()
    ensures Pow2(0) == 1 && Pow2(1) == 2
  {
  }

  method ScaledPowers(maxQ: nat) returns (values: seq<(nat, nat)>)
    ensures |values| == maxQ + 1
    ensures forall q :: 0 <= q <= maxQ ==> IsScaled(values[q].0, values[q].1, q)
  {
    hide Pow, Pow2, BitLength, IsScaled;
    values := [];
    for q := 0 to maxQ + 1
      invariant |values| == q
      invariant forall j :: 0 <= j < q ==> IsScaled(values[j].0, values[j].1, j)
    {
      var value := Pow(5, q);
      var bitLength := BitLength(value);
      var shift := if bitLength > 127 then bitLength - 127 else 0;
      Scaled(q, bitLength);
      values := values + [(value / Pow2(shift), shift)];
    }
  }

  // 2^shift / 5^q rounded down, less one unit where it is whole.
  function BelowReciprocal(shift: nat, q: nat): nat { (Pow2(shift) - 1) / Pow(5, q) }

  lemma Reciprocal(q: nat, n: int)
    requires n == BitLength(Pow(5, q))
    ensures n > 0 && IsReciprocal(BelowReciprocal(n + 127, q), n + 127, q)
  {
    hide Pow, Pow2, BitLength;
    BitLengthOfPower(5, q);
    Pow2At127();
    var f, p := Pow(5, q), Pow2(n + 127);
    Pow2Add(127, n);
    Pow2Add(128, n - 1);
    MulMonotonic(f, Pow2(n) - 1, TWO_127, TWO_127);
    MulMonotonic(Pow2(n - 1), f, TWO_128, TWO_128);
    FloorDivide(p - 1, f, TWO_127, TWO_128);
  }

  method InversePowers(maxQ: nat) returns (values: seq<(nat, nat)>)
    ensures |values| == maxQ + 1
    ensures forall q :: 0 <= q <= maxQ ==> IsReciprocal(values[q].0, values[q].1, q)
  {
    hide Pow, Pow2, BitLength, IsReciprocal;
    values := [];
    for q := 0 to maxQ + 1
      invariant |values| == q
      invariant forall j :: 0 <= j < q ==> IsReciprocal(values[j].0, values[j].1, j)
    {
      var denom := Pow(5, q);
      var shift := BitLength(denom) + 127;
      Reciprocal(q, BitLength(denom));
      assert BelowReciprocal(shift, q) == (Pow2(shift) - 1) / denom;
      values := values + [((Pow2(shift) - 1) / denom, shift)];
    }
  }

  // ----- the tables agree with each other -----

  // From q = 1 the reciprocal entry of q is the Eisel-Lemire entry of -q.
  lemma ReciprocalIsTruncation(recip: nat, shift: nat, q: int)
    requires q > 0 && IsReciprocal(recip, shift, q)
    ensures IsTruncation(recip, shift, -q)
  {
    hide Pow, Pow2, Two;
    var f, p := Pow(5, q), Pow2(shift);
    NotDivisibleByFive(shift);
    DivisibleByFive(q, recip + 1);
    TwoIsPow2(shift);
    Reciprocated(p as real, f as real);
    RealQuotient(p, f, recip, (1.0 / f as real) * p as real);
  }

  lemma DivisibleByFive(q: nat, k: nat)
    requires q > 0
    ensures (k * Pow(5, q)) % 5 == 0
  {
    var x := Pow(5, q - 1);
    assert k * Pow(5, q) == 5 * (k * x);
  }

  // At q = 0 the reciprocal is one unit short of two: its 128 bits are all ones.
  lemma ReciprocalOfOne(recip: nat, shift: nat)
    requires IsReciprocal(recip, shift, 0)
    ensures recip == TWO_128 - 1 && shift == 128
  {
    hide Pow2;
    Pow2At127();
    if shift < 128 { Pow2Monotonic(shift, 127); }
    if shift > 128 { Pow2Monotonic(129, shift); Pow2Add(128, 1); Pow2Zero(); }
  }

  // A cut scaled entry is the Eisel-Lemire entry without its last bit.
  lemma ScaledIsHalf(scaled: nat, shift: nat, v: nat, s: int, q: nat)
    requires shift > 0 && IsScaled(scaled, shift, q) && IsTruncation(v, s, q)
    ensures scaled == v / 2 && s == 1 - shift
  {
    hide Pow, Pow2, Two, BitLength, Power;
    Pow2Add(1, shift - 1);
    Pow2Zero();
    var f, p := Pow(5, q), Pow2(shift - 1);
    TwiceCut(f, p, scaled);
    CutReal(f, p, q, shift - 1);
    TruncationUnique(v, s, f / p, 1 - shift, q);
  }

  lemma TwiceCut(f: nat, p: nat, scaled: nat)
    requires p > 0 && scaled * (2 * p) <= f < (scaled + 1) * (2 * p)
    ensures 2 * scaled <= f / p < 2 * scaled + 2
  {
    FloorDivide(f, p, 2 * scaled, 2 * scaled + 2);
    assert (2 * scaled) * p == scaled * (2 * p);
    assert (2 * scaled + 2) * p == (scaled + 1) * (2 * p);
  }

  // f/p as the cut of 5^q * 2^-i.
  lemma CutReal(f: nat, p: nat, q: nat, i: int)
    requires i >= 0 && f == Pow(5, q) && p == Pow2(i)
    ensures (f / p) as real <= Power(5, q) * Two(-i) < (f / p) as real + 1.0
  {
    hide Pow, Pow2, Two;
    TwoIsPow2(i);
    FloorDivide(f, p, 0, 0);
    Reciprocated(f as real, p as real);
    RealQuotient(f, p, f / p, f as real * (1.0 / p as real));
  }
}
