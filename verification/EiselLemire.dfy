// The direct Eisel-Lemire step of the decimal parser: w * 10^q as one or two 64-bit products with a
// truncated power of five. It answers only when the answer is certain.
module EiselLemire {
  import opened Powers
  import opened Bytes
  import opened Exponents
  import opened FloatTables
  import opened Doubles

  const TWO_62: nat := 0x4000_0000_0000_0000
  const TWO_137: nat := 512 * TWO_128
  const MIN_Q: int := -325
  const MAX_Q: int := 308

  // ----- 64 by 64 bits -----

  datatype Parts = Parts(hi: nat, lo: nat)

  // From 32-bit pieces, every sum and shift in 64 bits.
  function Multiply(lhs: nat, rhs: nat): Parts {
    var a, b, c, d := lhs % TWO_32, lhs / TWO_32, rhs % TWO_32, rhs / TWO_32;
    var p0, p1, p2, p3 := a * c % TWO_64, a * d % TWO_64, b * c % TWO_64, b * d % TWO_64;
    Assembled(p0, p1, p2, p3)
  }

  function Assembled(p0: nat, p1: nat, p2: nat, p3: nat): Parts {
    var middle := (p0 / TWO_32 + p1 % TWO_32 + p2 % TWO_32) % TWO_64;
    Parts((p3 + p1 / TWO_32 + p2 / TWO_32 + middle / TWO_32) % TWO_64, Or(p0 % TWO_32, middle * TWO_32 % TWO_64))
  }

  lemma MultiplyExact(lhs: nat, rhs: nat)
    requires lhs < TWO_64 && rhs < TWO_64
    ensures var p := Multiply(lhs, rhs); p.lo < TWO_64 && p.hi < TWO_64 && p.lo + TWO_64 * p.hi == lhs * rhs
  {
    hide Or, Assembled;
    var a, b, c, d := lhs % TWO_32, lhs / TWO_32, rhs % TWO_32, rhs / TWO_32;
    PieceBound(a, c); PieceBound(a, d); PieceBound(b, c); PieceBound(b, d);
    AssembledExact(a * c, a * d, b * c, b * d);
    FourPieces(a, b, c, d);
  }

  lemma PieceBound(a: nat, b: nat)
    requires a < TWO_32 && b < TWO_32
    ensures a * b <= 0xffff_fffe_0000_0001 && a * b % TWO_64 == a * b
  {
    MulMonotonic(a, 0xffff_ffff, b, 0xffff_ffff);
    Quotient(a * b, TWO_64, 0, a * b);
  }

  lemma FourPieces(a: nat, b: nat, c: nat, d: nat)
    ensures (a + TWO_32 * b) * (c + TWO_32 * d) == a * c + TWO_32 * (a * d + b * c) + TWO_64 * (b * d)
  {
    assert (a + TWO_32 * b) * (c + TWO_32 * d) == a * (c + TWO_32 * d) + (TWO_32 * b) * (c + TWO_32 * d);
    assert a * (c + TWO_32 * d) == a * c + TWO_32 * (a * d);
    Reassociate(TWO_32, b, c + TWO_32 * d);
    assert b * (c + TWO_32 * d) == b * c + TWO_32 * (b * d);
  }

  lemma AssembledExact(p0: nat, p1: nat, p2: nat, p3: nat)
    requires p0 <= 0xffff_fffe_0000_0001 && p1 <= 0xffff_fffe_0000_0001
    requires p2 <= 0xffff_fffe_0000_0001 && p3 <= 0xffff_fffe_0000_0001
    ensures var p := Assembled(p0, p1, p2, p3);
            p.lo < TWO_64 && p.hi < TWO_64 && p.lo + TWO_64 * p.hi == p0 + TWO_32 * (p1 + p2) + TWO_64 * p3
  {
    hide Or;
    var m := p0 / TWO_32 + p1 % TWO_32 + p2 % TWO_32;
    var hi := p3 + p1 / TWO_32 + p2 / TWO_32 + m / TWO_32;
    Quotient(m, TWO_64, 0, m);
    Quotient(m * TWO_32, TWO_64, m / TWO_32, m % TWO_32 * TWO_32);
    JoinWords(p0 % TWO_32, m % TWO_32);
    Quotient(hi, TWO_64, 0, hi);
  }

  lemma JoinWords(low: nat, high: nat)
    requires low < TWO_32
    ensures Or(low, high * TWO_32) == low + high * TWO_32
  {
    hide Or, Pow2;
    Pow2Small();
    OrDisjoint(32, low, high);
    ShlIsTimesPow2(32, high);
  }

  // proven_float_clz_u64
  method LeadingZeros(value: nat) returns (count: nat)
    requires value < TWO_64
    ensures value == 0 ==> count == 64
    ensures value > 0 ==> count < 64 && TWO_63 <= value * Pow2(count) < TWO_64
  {
    if value == 0 {
      return 64;
    }
    hide Pow2;
    count := 0;
    var v := value;
    PowersAt64();
    while v < TWO_63
      invariant v == value * Pow2(count) && 0 < v < TWO_64
      decreases TWO_64 - v
    {
      Pow2Next(count);
      Reassociate(value, Pow2(count), 2);
      v := v * 2 % TWO_64;
      count := count + 1;
    }
    CountBound(value, count);
  }

  lemma PowersAt64()
    ensures Pow2(0) == 1 && Pow2(64) == TWO_64
  {
    Pow2Values();
  }

  lemma Pow2Next(n: nat)
    ensures Pow2(n + 1) == Pow2(n) * 2
  {
  }

  lemma CountBound(value: nat, count: nat)
    requires value > 0 && value * Pow2(count) < TWO_64
    ensures count < 64
  {
    hide Pow2;
    PowersAt64();
    MulMonotonic(1, value, Pow2(count), Pow2(count));
    if count >= 64 { Pow2Monotonic(64, count); }
  }

  // ----- the product, up to where it is certain -----

  // Whatever lies in [n, n + w), its bits above the lowest 137 are those of upper; and only n can be
  // all zeros below them, with lower and the low bits of upper zero.
  ghost predicate Decided(n: nat, w: nat, upper: nat, lower: nat) {
    var m := upper / 512;
    && TWO_62 <= upper < TWO_64
    && m * TWO_137 <= n && n + w <= (m + 1) * TWO_137
    && (n == m * TWO_137 ==> lower == 0 && upper % 512 == 0)
  }

  // From the high half of the factor alone.
  lemma FirstDecided(w: nat, p: nat, rest: nat, upper: nat, lower: nat)
    requires p == upper * TWO_64 + lower && lower < TWO_64 && upper < TWO_64 && w < TWO_64
    requires p >= TWO_62 * TWO_64 && rest + w <= w * TWO_64
    requires upper % 512 == 511 ==> lower + w < TWO_64
    ensures Decided(p * TWO_64 + rest, w, upper, lower)
  {
    var m, r := upper / 512, upper % 512;
    assert upper == 512 * m + r;
  }

  // From the whole factor.
  lemma SecondDecided(w: nat, n: nat, upper: nat, middle: nat, low: nat)
    requires n == upper * TWO_128 + middle * TWO_64 + low && middle < TWO_64 && low < TWO_64 && w < TWO_64
    requires TWO_62 <= upper < TWO_64
    requires middle == TWO_64 - 1 && upper % 512 == 511 ==> low + w < TWO_64
    ensures Decided(n, w, upper, middle)
  {
    var m, r := upper / 512, upper % 512;
    assert upper == 512 * m + r;
  }

  // An addition in 64 bits that wrapped shows in its result.
  predicate Wrapped(a: nat, b: nat): (r: bool)
    requires a < TWO_64 && b < TWO_64
    ensures r <==> a + b >= TWO_64
  {
    (a + b) % TWO_64 < a
  }

  method Product(w: nat, f: nat) returns (r: Option<Parts>)
    requires TWO_63 <= w < TWO_64 && TWO_127 <= f < TWO_128
    ensures r.Some? ==> Decided(w * f, w, r.value.hi, r.value.lo)
  {
    hide Multiply, Decided, Wrapped;
    var fHi, fLo := f / TWO_64, f % TWO_64;
    var product := Multiply(w, fHi);
    MultiplyExact(w, fHi);
    Halves(f);
    Factored(w, fHi, fLo);
    HighEnough(product.hi, product.lo, w * fHi);
    if product.hi % 512 == 511 && Wrapped(product.lo, w) {
      r := Refined(w, fLo, product.hi, product.lo, w * f);
    } else {
      FirstDecided(w, w * fHi, w * fLo, product.hi, product.lo);
      r := Some(product);
    }
  }

  // The factor's low limb taken in too.
  method Refined(w: nat, fLo: nat, upper: nat, lower: nat, ghost n: nat) returns (r: Option<Parts>)
    requires w < TWO_64 && fLo < TWO_64 && TWO_62 <= upper < TWO_64 && lower < TWO_64
    requires n == (upper * TWO_64 + lower) * TWO_64 + w * fLo && n < TWO_64 * TWO_128
    ensures r.Some? ==> Decided(n, w, r.value.hi, r.value.lo)
  {
    hide Multiply, Decided, Wrapped;
    var low := Multiply(w, fLo);
    MultiplyExact(w, fLo);
    var middle := (lower + low.hi) % TWO_64;
    Joined(upper, lower, low.hi, low.lo, n);
    var upper' := upper;
    if middle < lower {
      upper' := (upper + 1) % TWO_64;
    }
    AllOnes(middle);
    if (middle + 1) % TWO_64 == 0 && upper' % 512 == 511 && Wrapped(low.lo, w) {
      return None;
    }
    SecondDecided(w, n, upper', middle, low.lo);
    r := Some(Parts(upper', middle));
  }

  lemma Halves(f: nat)
    requires TWO_127 <= f < TWO_128
    ensures TWO_63 <= f / TWO_64 < TWO_64 && f == f / TWO_64 * TWO_64 + f % TWO_64
  {
  }

  lemma HighEnough(hi: nat, lo: nat, p: nat)
    requires p == lo + TWO_64 * hi && lo < TWO_64 && p >= TWO_62 * TWO_64
    ensures hi >= TWO_62
  {
  }

  lemma Factored(w: nat, fHi: nat, fLo: nat)
    requires TWO_63 <= w < TWO_64 && TWO_63 <= fHi < TWO_64 && fLo < TWO_64
    ensures w * (fHi * TWO_64 + fLo) == w * fHi * TWO_64 + w * fLo
    ensures w * fHi >= TWO_62 * TWO_64 && w * fLo + w <= w * TWO_64
    ensures w * (fHi * TWO_64 + fLo) < TWO_64 * TWO_128
  {
    Reassociate(w, fHi, TWO_64);
    MulMonotonic(TWO_63, w, TWO_63, fHi);
    MulMonotonic(w, w, fLo + 1, TWO_64);
    MulMonotonic(w, TWO_64, fHi * TWO_64 + fLo, TWO_128);
  }

  lemma AllOnes(middle: nat)
    requires middle < TWO_64
    ensures (middle + 1) % TWO_64 == 0 <==> middle == TWO_64 - 1
  {
  }

  lemma Joined(upper: nat, lower: nat, high: nat, low: nat, n: nat)
    requires upper < TWO_64 && lower < TWO_64 && high < TWO_64 && low < TWO_64 && upper >= TWO_62
    requires n == (upper * TWO_64 + lower) * TWO_64 + high * TWO_64 + low && n < TWO_64 * TWO_128
    ensures var middle := (lower + high) % TWO_64;
            var u := if middle < lower then (upper + 1) % TWO_64 else upper;
            n == u * TWO_128 + middle * TWO_64 + low && TWO_62 <= u < TWO_64
  {
  }

  // ----- from the product to the double -----

  // 2y lies at m or above it, below m + 1, and at m only where rounding m up is right.
  lemma HalfUnits(y: real, m: nat, n: nat)
    requires m as real <= 2.0 * y < (m + 1) as real && (2.0 * y == m as real ==> m % 4 != 1) && n == (m + 1) / 2
    ensures IsRounded(y, n)
  {
    hide IsRounded;
    HalfIs(m, n);
    if m == 2 * n {
      EvenUnits(y, m, n);
    } else {
      OddHalf(m, n);
      OddUnits(y, m, n, m % 4 == 1);
    }
  }

  lemma HalfIs(m: nat, n: nat)
    requires n == (m + 1) / 2
    ensures m == 2 * n || m == 2 * n - 1
  {
  }

  lemma EvenUnits(y: real, m: nat, n: nat)
    requires m == 2 * n && m as real <= 2.0 * y < (m + 1) as real
    ensures IsRounded(y, n)
  {
  }

  lemma OddUnits(y: real, m: nat, n: nat, wrong: bool)
    requires m == 2 * n - 1 && m as real <= 2.0 * y < (m + 1) as real && (2.0 * y == m as real ==> !wrong)
    requires wrong <==> n % 2 == 1
    ensures IsRounded(y, n)
  {
  }

  lemma OddHalf(m: nat, n: nat)
    requires m == 2 * n - 1
    ensures m % 4 == 1 <==> n % 2 == 1
  {
    var k, r := n / 2, n % 2;
    if r == 1 {
      Quotient(m, 4, k, 1);
    } else {
      Quotient(m, 4, k - 1, 3);
    }
  }

  // The bits that are kept, and whether they can be all there is.
  lemma KeptBits(p: nat, w: nat, upper: nat, lower: nat, upperbit: nat, x: real, y: real)
    requires Decided(p, w, upper, lower) && upperbit == upper / TWO_63
    requires p as real <= x < (p + w) as real
    requires x == y * (if upperbit == 1 then 2 * (2 * TWO_137) else 2 * TWO_137) as real
    ensures var m := Mantissa(upper, upperbit);
            && TWO_53 <= m < 2 * TWO_53 && m as real <= 2.0 * y < (m + 1) as real
            && (2.0 * y == m as real ==> lower == 0 && upper % 512 == 0)
  {
    var k := upper / 512;
    assert k as real * TWO_137 as real <= x < (k + 1) as real * TWO_137 as real;
    if x == k as real * TWO_137 as real { assert p == k * TWO_137; }
    if upperbit == 1 {
      assert upper / 1024 == k / 2;
    }
  }

  // The top 54 bits.
  function Mantissa(upper: nat, upperbit: nat): nat { if upperbit == 1 then upper / 1024 else upper / 512 }

  // ----- scales -----

  lemma TwoAdd(a: int, b: int)
    ensures Two(a + b) == Two(a) * Two(b)
  {
    hide Two;
    if b >= 0 {
      TwoAddNat(a, b);
    } else {
      TwoAddNat(a + b, -b);
      TwoAddNat(b, -b);
      TwoZero();
      var x, y, z := Two(a + b), Two(b), Two(-b);
      assert Two(a) == x * z && y * z == 1.0;
      Swapped(x, y, z);
    }
  }

  lemma Swapped(x: real, y: real, z: real)
    requires y * z == 1.0
    ensures (x * z) * y == x
  {
    assert (x * z) * y == x * (y * z);
  }

  lemma TenIsFiveTwice(q: int)
    ensures Power(10, q) == Power(5, q) * Two(q)
  {
    hide Pow;
    var n := if q >= 0 then q else -q;
    PowOfProduct(5, 2, n);
    var a, b := Pow(5, n), Pow(2, n);
    RealProduct(a, b, a * b);
    InverseProduct(a as real, b as real);
  }

  lemma InverseProduct(a: real, b: real)
    requires a > 0.0 && b > 0.0
    ensures a * b > 0.0 && 1.0 / (a * b) == (1.0 / a) * (1.0 / b)
  {
    var x, y := 1.0 / a, 1.0 / b;
    assert x * a == 1.0 && y * b == 1.0;
    assert (x * y) * (a * b) == (x * a) * (y * b) == 1.0;
    DivIs(1.0, a * b, x * y);
  }

  lemma TwoAt127()
    ensures Two(127) == TWO_127 as real && Two(128) == TWO_128 as real
    ensures Two(138) == (2 * TWO_137) as real && Two(139) == (2 * (2 * TWO_137)) as real
  {
    hide Two, Pow2;
    TwoIsPow2(127); TwoIsPow2(128); TwoIsPow2(138); TwoIsPow2(139);
    Pow2Values();
    Pow2Ten();
    Pow2Add(128, 10);
    Pow2Add(138, 1);
  }

  lemma Pow2Ten()
    ensures Pow2(10) == 1024
  {
  }

  // The scale of an entry is settled by the power of ten.
  lemma EntryScale(f: nat, s: int, q: int)
    requires IsTruncation(f, s, q)
    ensures q - s == FloorLog2Pow10(q) - 127
    ensures Power(10, q) == (Power(5, q) * Two(s)) * Two(q - s)
  {
    hide Two, Power, FloorLog2Pow10;
    var t, k := Power(5, q) * Two(s), Two(q - s);
    TenIsFiveTwice(q);
    TwoAdd(s, q - s);
    assert s + (q - s) == q;
    RealAssociate(Power(5, q), Two(s), k);
    TwoAt127();
    TwoAdd(127, q - s);
    TwoAdd(128, q - s);
    FloorOfScaled(t, k, 127 + (q - s));
    FloorLog2Pow10IsOnly(q, 127 + (q - s));
  }

  lemma FloorOfScaled(t: real, k: real, m: int)
    requires TWO_127 as real <= t < TWO_128 as real && k > 0.0
    requires Two(m) == TWO_127 as real * k && Two(m + 1) == TWO_128 as real * k
    ensures IsFloorLog2(m, t * k)
  {
    hide Two;
    ScaleUp(TWO_127 as real, t, k);
    ScaleUp(t, TWO_128 as real, k);
  }

  lemma RealAssociate(a: real, b: real, c: real)
    ensures (a * b) * c == a * (b * c)
  {
  }

  // The number in units of the double's last place.
  lemma Units(w: real, wide: real, z: real, t: real, x: real, k: real, ten: real, y: real, u: real, e: real)
    requires wide == w * z && x == wide * t && ten == t * k && x == y * u && e * z == u * k && z > 0.0
    ensures w * ten == y * e
  {
    assert (w * ten) * z == x * k by {
      RealAssociate(w * z, t, k);
      RealAssociate(w, z, t * k);
      RealAssociate(w, t * k, z);
    }
    RealAssociate(y, u, k);
    RealAssociate(y, e, z);
    Cancel(w * ten, y * e, z);
    Cancel(y * e, w * ten, z);
  }

  lemma ProductBounds(w: nat, f: nat, t: real, x: real)
    requires f as real <= t < f as real + 1.0 && w > 0 && x == w as real * t
    ensures (w * f) as real <= x < (w * f + w) as real
  {
    var p := w * f;
    RealProduct(w, f, p);
    ProductBetween(w as real, f as real, t, p as real, x);
  }

  lemma ProductBetween(w: real, f: real, t: real, p: real, x: real)
    requires w > 0.0 && f <= t < f + 1.0 && p == w * f && x == w * t
    ensures p <= x < p + w
  {
    var d := t - f;
    TimesSum(w, f, d, t);
    PartOf(w, d, w * d);
  }

  lemma TimesSum(w: real, f: real, d: real, t: real)
    requires t == f + d
    ensures w * t == w * f + w * d
  {
  }

  lemma PartOf(w: real, d: real, part: real)
    requires w > 0.0 && 0.0 <= d < 1.0 && part == w * d
    ensures 0.0 <= part < w
  {
  }

  // Every answer is the double nearest to w * 10^q, ties to even.
  lemma AnswerIsNearest(w: nat, lz: nat, wide: nat, q: int, f: nat, upper: nat, lower: nat, b: int, bits: nat)
    requires w > 0 && wide == w * Pow2(lz) && TWO_63 <= wide < TWO_64 && IsEntry(f, q)
    requires Decided(wide * f, wide, upper, lower)
    requires var upperbit := upper / TWO_63;
             var m := Mantissa(upper, upperbit);
             && b == FloorLog2Pow10(q) + 1086 + upperbit - lz && b >= 1
             && !(lower == 0 && upper % 512 == 0 && m % 4 == 1)
             && (m + 1) / 2 >= TWO_52 && bits == b * TWO_52 + ((m + 1) / 2 - TWO_52) && bits < INFINITY
    ensures IsNearestDouble(bits, w as real * Power(10, q))
  {
    hide Two, Power, FloorLog2Pow10, Decided, Mantissa, IsNearestDouble, IsRounded;
    var s :| IsTruncation(f, s, q);
    var upperbit, n := upper / TWO_63, (Mantissa(upper, upper / TWO_63) + 1) / 2;
    UpperBit(wide * f, wide, upper, lower);
    var x := wide as real * (Power(5, q) * Two(s));
    var y := x / Two(138 + upperbit);
    DivTimes(x, Two(138 + upperbit));
    Significand(wide, f, s, q, upper, lower, x, y);
    InUnits(w, lz, wide, q, f, s, upperbit, b, x, y);
    RoundedIsNearest(b, y, n, bits);
  }

  lemma Significand(wide: nat, f: nat, s: int, q: int, upper: nat, lower: nat, x: real, y: real)
    requires IsTruncation(f, s, q) && wide > 0 && Decided(wide * f, wide, upper, lower)
    requires x == wide as real * (Power(5, q) * Two(s)) && x == y * Two(138 + upper / TWO_63)
    requires var m := Mantissa(upper, upper / TWO_63); !(lower == 0 && upper % 512 == 0 && m % 4 == 1)
    ensures TWO_52 as real <= y < TWO_53 as real
    ensures var n := (Mantissa(upper, upper / TWO_63) + 1) / 2; IsRounded(y, n) && TWO_52 <= n <= TWO_53
  {
    hide Two, Power, Decided, Mantissa, IsRounded;
    var upperbit := upper / TWO_63;
    var m := Mantissa(upper, upperbit);
    UpperBit(wide * f, wide, upper, lower);
    ProductBounds(wide, f, Power(5, q) * Two(s), x);
    TwoAt127();
    KeptBits(wide * f, wide, upper, lower, upperbit, x, y);
    HalfUnits(y, m, (m + 1) / 2);
  }

  lemma InUnits(w: nat, lz: nat, wide: nat, q: int, f: nat, s: int, upperbit: nat, b: int, x: real, y: real)
    requires IsTruncation(f, s, q) && wide == w * Pow2(lz) && b == FloorLog2Pow10(q) + 1086 + upperbit - lz
    requires x == wide as real * (Power(5, q) * Two(s)) && x == y * Two(138 + upperbit)
    ensures w as real * Power(10, q) == y * Two(b - 1075)
  {
    hide Two, Power, FloorLog2Pow10, Pow2;
    EntryScale(f, s, q);
    TwoIsPow2(lz);
    RealProduct(w, Pow2(lz), wide);
    TwoAdd(b - 1075, lz);
    TwoAdd(138 + upperbit, q - s);
    assert b - 1075 + lz == 138 + upperbit + (q - s);
    Units(w as real, wide as real, Two(lz), Power(5, q) * Two(s), x, Two(q - s), Power(10, q), y, Two(138 + upperbit), Two(b - 1075));
  }

  lemma UpperBit(p: nat, w: nat, upper: nat, lower: nat)
    requires Decided(p, w, upper, lower)
    ensures upper / TWO_63 <= 1
  {
  }

  lemma DivTimes(x: real, u: real)
    requires u > 0.0
    ensures x / u * u == x
  {
  }

  // ----- the whole step -----

  // The generated table.
  ghost predicate IsTable(table: seq<nat>) {
    |table| == MAX_Q - MIN_Q + 1 && forall i :: 0 <= i < |table| ==> IsEntry(table[i], MIN_Q + i)
  }

  // A shift of a negative number to the right, as a floor.
  function FloorShift(t: int): int {
    if t >= 0 then t / 65536 else -((-t + 65535) / 65536)
  }

  lemma FloorShiftIsEstimate(q: int)
    ensures FloorShift(217706 * q) == Estimate(q)
  {
    var t := 217706 * q;
    var k, r := t / 65536, t % 65536;
    if t < 0 {
      Quotient(-t + 65535, 65536, -k, 65535 - r);
    }
  }

  // proven_float_eisel_lemire_core
  method Core(table: seq<nat>, w: nat, q: int) returns (r: Option<nat>)
    requires w < TWO_64 && IsTable(table)
    ensures r.Some? ==> IsNearestDouble(r.value, w as real * Power(10, q))
  {
    hide IsNearestDouble, Power, IsEntry, Pow2, FloorLog2Pow10, FloorShift, Decided, Or;
    if w == 0 || q < MIN_Q || q > MAX_Q {
      return None;
    }
    var lz := LeadingZeros(w);
    var wide := w * Pow2(lz);
    var exponent := FloorShift(217706 * q) + 1024 + 63;
    FloorShiftIsEstimate(q);
    EstimateIsExact(q);
    var f := table[q - MIN_Q];
    assert IsEntry(f, q);
    EntryBounds(f, q);
    var product := Product(wide, f);
    if product.None? {
      return None;
    }
    r := Round(product.value.hi, product.value.lo, exponent, lz, w, wide, q, f);
  }

  lemma EntryBounds(f: nat, q: int)
    requires IsEntry(f, q)
    ensures TWO_127 <= f < TWO_128
  {
  }

  // Normal, not a possible tie that would round up wrongly, rounded and packed.
  method Round(upper: nat, lower: nat, exponent: int, zeros: nat, ghost w: nat, ghost wide: nat, ghost q: int, ghost f: nat)
    returns (r: Option<nat>)
    requires w > 0 && wide == w * Pow2(zeros) && TWO_63 <= wide < TWO_64 && IsEntry(f, q)
    requires Decided(wide * f, wide, upper, lower) && exponent == FloorLog2Pow10(q) + 1024 + 63
    ensures r.Some? ==> IsNearestDouble(r.value, w as real * Power(10, q))
  {
    hide IsNearestDouble, Power, IsEntry, Pow2, FloorLog2Pow10, Decided, Or;
    UpperBit(wide * f, wide, upper, lower);
    MantissaBits(wide * f, wide, upper, lower);
    var upperbit := upper / TWO_63;
    var mantissa := Mantissa(upper, upperbit);
    ghost var m := mantissa;
    var realExponent := exponent - (zeros + (1 - upperbit));
    if realExponent < 1 || realExponent > 2046 {
      return None;
    }
    if lower == 0 && upper % 512 == 0 && mantissa % 4 == 1 {
      return None;
    }
    mantissa := (mantissa + 1) / 2;
    var biased := realExponent;
    if mantissa >= TWO_53 {
      mantissa := TWO_52;
      biased := biased + 1;
    }
    mantissa := mantissa % TWO_52;
    if biased > 2046 {
      return None;
    }
    var bits := Or(mantissa, biased * TWO_52);
    PackedBits(mantissa, biased);
    AnswerIsNearest(w, zeros, wide, q, f, upper, lower, realExponent, bits);
    r := Some(bits);
  }

  lemma MantissaBits(p: nat, w: nat, upper: nat, lower: nat)
    requires Decided(p, w, upper, lower)
    ensures TWO_53 <= Mantissa(upper, upper / TWO_63) < 2 * TWO_53
  {
  }

  lemma PackedBits(mantissa: nat, biased: nat)
    requires mantissa < TWO_52
    ensures Or(mantissa, biased * TWO_52) == mantissa + biased * TWO_52
  {
    hide Or, Pow2;
    Pow2At52();
    OrDisjoint(52, mantissa, biased);
    ShlIsTimesPow2(52, biased);
  }

  lemma Pow2At52()
    ensures Pow2(52) == TWO_52
  {
    Pow2Small();
    hide Pow2;
    Pow2Add(26, 26);
  }

  // proven_float_try_eisel_lemire_truncated: w holds the first 19 digits of a longer number v.
  method Truncated(table: seq<nat>, w: nat, q: int, ghost v: real) returns (r: Option<nat>)
    requires w + 1 < TWO_64 && IsTable(table)
    requires w as real * Power(10, q) < v < (w + 1) as real * Power(10, q)
    ensures r.Some? ==> IsNearestDouble(r.value, v)
  {
    hide IsNearestDouble, Power, IsEntry;
    var next := w + 1;
    var low := Core(table, w, q);
    var high := Core(table, next, q);
    if low.None? || high.None? || low.value != high.value {
      return None;
    }
    NearestBetween(low.value, w as real * Power(10, q), next as real * Power(10, q), v);
    r := low;
  }

  // On the table as it is generated.
  method ParseDirect(w: nat, q: int) returns (r: Option<nat>)
    requires w < TWO_64
    ensures r.Some? ==> IsNearestDouble(r.value, w as real * Power(10, q))
  {
    hide IsNearestDouble, Power, IsEntry;
    var table := EiselLemirePowers(MIN_Q, MAX_Q);
    r := Core(table, w, q);
  }
}
