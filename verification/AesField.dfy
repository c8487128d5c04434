// Bytes as elements of GF(2^8), and columns of four (section 4 of FIPS 197).
module AesField {

  import opened Bytes

  function Plus(a: Byte, b: Byte): Byte { a ^ b }

  // Multiplication by x: section 4.2.1.
  function Double(a: Byte): Byte {
    (a << 1) ^ ((a >> 7) * 0x1b)
  }

  function Times3(a: Byte): Byte { Plus(Double(a), a) }
  function Times9(a: Byte): Byte { Plus(Double(Double(Double(a))), a) }
  function Times11(a: Byte): Byte { Plus(Double(Double(Double(a))), Times3(a)) }
  function Times13(a: Byte): Byte { Plus(Times9(a), Double(Double(a))) }
  function Times14(a: Byte): Byte { Plus(Double(Double(Double(a))), Plus(Double(Double(a)), Double(a))) }

  function Plus4(a: Byte, b: Byte, c: Byte, d: Byte): Byte { Plus(Plus(a, b), Plus(c, d)) }

  datatype Column = Column(r0: Byte, r1: Byte, r2: Byte, r3: Byte)

  // Section 5.1.3.
  function MixColumn(c: Column): Column {
    Column(Plus4(Double(c.r0), Times3(c.r1), c.r2, c.r3),
           Plus4(c.r0, Double(c.r1), Times3(c.r2), c.r3),
           Plus4(c.r0, c.r1, Double(c.r2), Times3(c.r3)),
           Plus4(Times3(c.r0), c.r1, c.r2, Double(c.r3)))
  }

  // Section 5.3.3.
  function InvMixColumn(c: Column): Column {
    Column(Plus4(Times14(c.r0), Times11(c.r1), Times13(c.r2), Times9(c.r3)),
           Plus4(Times9(c.r0), Times14(c.r1), Times11(c.r2), Times13(c.r3)),
           Plus4(Times13(c.r0), Times9(c.r1), Times14(c.r2), Times11(c.r3)),
           Plus4(Times11(c.r0), Times13(c.r1), Times9(c.r2), Times14(c.r3)))
  }

  function PlusColumn(c: Column, d: Column): Column {
    Column(Plus(c.r0, d.r0), Plus(c.r1, d.r1), Plus(c.r2, d.r2), Plus(c.r3, d.r3))
  }

  // ----- linearity -----

  lemma PlusSwap(a: Byte, b: Byte, c: Byte, d: Byte)
    ensures Plus(Plus(a, b), Plus(c, d)) == Plus(Plus(a, c), Plus(b, d))
  {
    hide Plus;
    PlusAssoc(a, b, Plus(c, d));
    PlusAssoc(b, c, d);
    PlusComm(b, c);
    PlusAssoc(c, b, d);
    PlusAssoc(a, c, Plus(b, d));
  }

  lemma PlusAssoc(a: Byte, b: Byte, c: Byte)
    ensures Plus(Plus(a, b), c) == Plus(a, Plus(b, c))
  {
  }

  lemma PlusComm(a: Byte, b: Byte)
    ensures Plus(a, b) == Plus(b, a)
  {
  }

  lemma Plus4Swap(a: Byte, b: Byte, c: Byte, d: Byte, e: Byte, f: Byte, g: Byte, h: Byte)
    ensures Plus4(Plus(a, e), Plus(b, f), Plus(c, g), Plus(d, h)) == Plus(Plus4(a, b, c, d), Plus4(e, f, g, h))
  {
    hide Plus;
    PlusSwap(a, e, b, f);
    PlusSwap(c, g, d, h);
    PlusSwap(Plus(a, b), Plus(e, f), Plus(c, d), Plus(g, h));
  }

  lemma DoublePlus(a: Byte, b: Byte)
    ensures Double(Plus(a, b)) == Plus(Double(a), Double(b))
  {
  }

  lemma TimesPlus(a: Byte, b: Byte)
    ensures Times3(Plus(a, b)) == Plus(Times3(a), Times3(b))
    ensures Times9(Plus(a, b)) == Plus(Times9(a), Times9(b))
    ensures Times11(Plus(a, b)) == Plus(Times11(a), Times11(b))
    ensures Times13(Plus(a, b)) == Plus(Times13(a), Times13(b))
    ensures Times14(Plus(a, b)) == Plus(Times14(a), Times14(b))
  {
    hide Double, Plus;
    var a2, b2 := Double(a), Double(b);
    var a4, b4 := Double(a2), Double(b2);
    var a8, b8 := Double(a4), Double(b4);
    DoublePlus(a, b); DoublePlus(a2, b2); DoublePlus(a4, b4);
    PlusSwap(a2, b2, a, b);
    PlusSwap(a8, b8, a, b);
    PlusSwap(a8, b8, Times3(a), Times3(b));
    PlusSwap(Times9(a), Times9(b), a4, b4);
    PlusSwap(a4, b4, a2, b2);
    PlusSwap(a8, b8, Plus(a4, a2), Plus(b4, b2));
  }

  lemma InvMixColumnPlus(c: Column, d: Column)
    ensures InvMixColumn(PlusColumn(c, d)) == PlusColumn(InvMixColumn(c), InvMixColumn(d))
  {
    hide Times9, Times11, Times13, Times14, Plus, Plus4;
    TimesPlus(c.r0, d.r0); TimesPlus(c.r1, d.r1); TimesPlus(c.r2, d.r2); TimesPlus(c.r3, d.r3);
    Plus4Swap(Times14(c.r0), Times11(c.r1), Times13(c.r2), Times9(c.r3), Times14(d.r0), Times11(d.r1), Times13(d.r2), Times9(d.r3));
    Plus4Swap(Times9(c.r0), Times14(c.r1), Times11(c.r2), Times13(c.r3), Times9(d.r0), Times14(d.r1), Times11(d.r2), Times13(d.r3));
    Plus4Swap(Times13(c.r0), Times9(c.r1), Times14(c.r2), Times11(c.r3), Times13(d.r0), Times9(d.r1), Times14(d.r2), Times11(d.r3));
    Plus4Swap(Times11(c.r0), Times13(c.r1), Times9(c.r2), Times14(c.r3), Times11(d.r0), Times13(d.r1), Times9(d.r2), Times14(d.r3));
  }

  lemma MixColumnPlus(c: Column, d: Column)
    ensures MixColumn(PlusColumn(c, d)) == PlusColumn(MixColumn(c), MixColumn(d))
  {
    hide Times3, Double, Plus, Plus4;
    TimesPlus(c.r0, d.r0); TimesPlus(c.r1, d.r1); TimesPlus(c.r2, d.r2); TimesPlus(c.r3, d.r3);
    DoublePlus(c.r0, d.r0); DoublePlus(c.r1, d.r1); DoublePlus(c.r2, d.r2); DoublePlus(c.r3, d.r3);
    Plus4Swap(Double(c.r0), Times3(c.r1), c.r2, c.r3, Double(d.r0), Times3(d.r1), d.r2, d.r3);
    Plus4Swap(c.r0, Double(c.r1), Times3(c.r2), c.r3, d.r0, Double(d.r1), Times3(d.r2), d.r3);
    Plus4Swap(c.r0, c.r1, Double(c.r2), Times3(c.r3), d.r0, d.r1, Double(d.r2), Times3(d.r3));
    Plus4Swap(Times3(c.r0), c.r1, c.r2, Double(c.r3), Times3(d.r0), d.r1, d.r2, Double(d.r3));
  }

  // ----- the inverse, byte by byte -----

  lemma UndoesFirst(a: Byte)
    ensures InvMixColumn(MixColumn(Column(a, 0, 0, 0))) == Column(a, 0, 0, 0)
  {
  }

  lemma UndoesSecond(a: Byte)
    ensures InvMixColumn(MixColumn(Column(0, a, 0, 0))) == Column(0, a, 0, 0)
  {
  }

  lemma UndoesThird(a: Byte)
    ensures InvMixColumn(MixColumn(Column(0, 0, a, 0))) == Column(0, 0, a, 0)
  {
  }

  lemma UndoesFourth(a: Byte)
    ensures InvMixColumn(MixColumn(Column(0, 0, 0, a))) == Column(0, 0, 0, a)
  {
  }

  lemma UndoesSum(c: Column, d: Column)
    requires InvMixColumn(MixColumn(c)) == c && InvMixColumn(MixColumn(d)) == d
    ensures InvMixColumn(MixColumn(PlusColumn(c, d))) == PlusColumn(c, d)
  {
    hide MixColumn, InvMixColumn, PlusColumn;
    MixColumnPlus(c, d);
    InvMixColumnPlus(MixColumn(c), MixColumn(d));
  }

  lemma InvMixColumnUndoes(c: Column)
    ensures InvMixColumn(MixColumn(c)) == c
  {
    hide MixColumn, InvMixColumn;
    var w, x, y, z := Column(c.r0, 0, 0, 0), Column(0, c.r1, 0, 0), Column(0, 0, c.r2, 0), Column(0, 0, 0, c.r3);
    UndoesFirst(c.r0); UndoesSecond(c.r1); UndoesThird(c.r2); UndoesFourth(c.r3);
    UndoesSum(w, x);
    UndoesSum(y, z);
    UndoesSum(PlusColumn(w, x), PlusColumn(y, z));
  }
}
