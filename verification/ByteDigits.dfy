// A byte as eight binary digits, and the number they stand for.
module ByteDigits {

  // Eight binary digits, lowest first: a byte, and the number it stands for.
  datatype Digits = Digits(d0: bool, d1: bool, d2: bool, d3: bool, d4: bool, d5: bool, d6: bool, d7: bool)

  function DigitsOf(b: bv8): Digits {
    Digits(b & 1 != 0, b & 2 != 0, b & 4 != 0, b & 8 != 0, b & 16 != 0, b & 32 != 0, b & 64 != 0, b & 128 != 0)
  }

  function One(digit: bool, bit: bv8): bv8 { if digit then bit else 0 }

  function Pack(d: Digits): bv8 {
    One(d.d0, 1) | One(d.d1, 2) | One(d.d2, 4) | One(d.d3, 8) | One(d.d4, 16) | One(d.d5, 32) | One(d.d6, 64) | One(d.d7, 128)
  }

  function Worth(digit: bool, weight: nat): (w: nat)
    ensures w <= weight
  {
    if digit then weight else 0
  }

  function Value(d: Digits): (v: nat)
    ensures v < 256
  {
    Sum(Worth(d.d0, 1), Worth(d.d1, 2), Worth(d.d2, 4), Worth(d.d3, 8),
        Worth(d.d4, 16), Worth(d.d5, 32), Worth(d.d6, 64), Worth(d.d7, 128))
  }

  function Sum(w0: nat, w1: nat, w2: nat, w3: nat, w4: nat, w5: nat, w6: nat, w7: nat): (v: nat)
    requires w0 <= 1 && w1 <= 2 && w2 <= 4 && w3 <= 8 && w4 <= 16 && w5 <= 32 && w6 <= 64 && w7 <= 128
    ensures v < 256
  {
    w0 + w1 + w2 + w3 + w4 + w5 + w6 + w7
  }

  function Odd(v: nat): bool { v % 2 == 1 }

  function LowDigits(v: nat): Digits {
    var v1 := v / 2;
    var v2 := v1 / 2;
    var v3 := v2 / 2;
    var v4 := v3 / 2;
    var v5 := v4 / 2;
    var v6 := v5 / 2;
    var v7 := v6 / 2;
    Digits(Odd(v), Odd(v1), Odd(v2), Odd(v3), Odd(v4), Odd(v5), Odd(v6), Odd(v7))
  }

  // Dafny's own number of a byte.
  lemma ValueIs(b: bv8)
    ensures Value(DigitsOf(b)) == b as nat
  {
  }

  lemma PackedDigits(d0: bool, d1: bool, d2: bool, d3: bool, d4: bool, d5: bool, d6: bool, d7: bool)
    ensures var b := One(d0, 1) | One(d1, 2) | One(d2, 4) | One(d3, 8) | One(d4, 16) | One(d5, 32) | One(d6, 64) | One(d7, 128);
            && (b & 1 != 0) == d0 && (b & 2 != 0) == d1 && (b & 4 != 0) == d2 && (b & 8 != 0) == d3
            && (b & 16 != 0) == d4 && (b & 32 != 0) == d5 && (b & 64 != 0) == d6 && (b & 128 != 0) == d7
  {
  }

  lemma PackRoundTrip(d: Digits)
    ensures DigitsOf(Pack(d)) == d
  {
    hide One;
    PackedDigits(d.d0, d.d1, d.d2, d.d3, d.d4, d.d5, d.d6, d.d7);
  }

  lemma Halved(v: nat, weight: nat)
    ensures weight * v == Worth(Odd(v), weight) + weight * 2 * (v / 2)
  {
    assert v == (if Odd(v) then 1 else 0) + 2 * (v / 2);
  }

  lemma LowDigitsValue(v: nat)
    ensures Value(LowDigits(v)) == v % 256
  {
    hide Odd, Worth;
    var v1 := v / 2; var v2 := v1 / 2; var v3 := v2 / 2; var v4 := v3 / 2;
    var v5 := v4 / 2; var v6 := v5 / 2; var v7 := v6 / 2; var v8 := v7 / 2;
    Halved(v, 1); Halved(v1, 2); Halved(v2, 4); Halved(v3, 8);
    Halved(v4, 16); Halved(v5, 32); Halved(v6, 64); Halved(v7, 128);
    Remainder256(v, v8, Value(LowDigits(v)));
  }

  lemma Remainder256(v: nat, q: nat, r: nat)
    requires v == 256 * q + r && r < 256
    ensures v % 256 == r
  {
  }
}
