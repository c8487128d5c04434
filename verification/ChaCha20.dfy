// ChaCha20 (sections 2.1 to 2.4 of RFC 8439), four or eight blocks at a time:
// vector j holds word j of consecutive blocks, and a transpose at the end turns
// the words back into each block's bytes.
module ChaCha20 {
  import opened Powers
  import opened Bytes
  import CM = CounterMode

  type Word = bv32

  type State = s: seq<Word> | |s| == 16 witness [0, 0, 0, 0, 0, 0, 0, 0, 0, 0, 0, 0, 0, 0, 0, 0]

  function Add(a: Word, b: Word): Word { a + b }
  function Xor(a: Word, b: Word): Word { a ^ b }

  // ----- the standard -----

  function Rotl(x: Word, n: nat): Word
    requires n < 32
  {
    (x << n) | (x >> (32 - n))
  }

  datatype Four = Four(a: Word, b: Word, c: Word, d: Word)

  // Section 2.1.
  function Quarter(q: Four): Four {
    var a := Add(q.a, q.b); var d := Rotl(Xor(q.d, a), 16);
    var c := Add(q.c, d);   var b := Rotl(Xor(q.b, c), 12);
    var a' := Add(a, b);    var d' := Rotl(Xor(d, a'), 8);
    var c' := Add(c, d');   var b' := Rotl(Xor(b, c'), 7);
    Four(a', b', c', d')
  }

  // Section 2.2.
  function QuarterRound(s: State, i: nat, j: nat, k: nat, l: nat): State
    requires i < 16 && j < 16 && k < 16 && l < 16
  {
    hide Quarter;
    var q := Quarter(Four(s[i], s[j], s[k], s[l]));
    s[i := q.a][j := q.b][k := q.c][l := q.d]
  }

  function ColumnRound(s: State): State {
    QuarterRound(QuarterRound(QuarterRound(QuarterRound(s, 0, 4, 8, 12), 1, 5, 9, 13), 2, 6, 10, 14), 3, 7, 11, 15)
  }

  function DiagonalRound(s: State): State {
    QuarterRound(QuarterRound(QuarterRound(QuarterRound(s, 0, 5, 10, 15), 1, 6, 11, 12), 2, 7, 8, 13), 3, 4, 9, 14)
  }

  function DoubleRounds(n: nat, s: State): State {
    if n == 0 then s else DiagonalRound(ColumnRound(DoubleRounds(n - 1, s)))
  }

  // Section 2.3: ten double rounds and the input added.
  function BlockWords(s: State): State {
    var x := DoubleRounds(10, s);
    seq(16, j requires 0 <= j < 16 => Add(x[j], s[j]))
  }

  function WordByte(w: Word, i: nat): Byte
    requires i < 4
  {
    if i == 0 then (w & 0xff) as Byte
    else if i == 1 then ((w >> 8) & 0xff) as Byte
    else if i == 2 then ((w >> 16) & 0xff) as Byte
    else ((w >> 24) & 0xff) as Byte
  }

  // The counter n blocks later; it wraps.
  function CounterAfter(counter: Word, n: nat): Word {
    if n == 0 then counter else CounterAfter(counter, n - 1) + 1
  }

  // Byte p of the keystream of section 2.4.
  function KeyByte(s: State, p: nat): Byte {
    WordByte(BlockWords(s[12 := CounterAfter(s[12], p / 64)])[p % 64 / 4], p % 4)
  }

  // Four bytes as a word, the first one the lowest.
  function JoinWord(b0: Byte, b1: Byte, b2: Byte, b3: Byte): Word {
    (b0 as Word) | ((b1 as Word) << 8) | ((b2 as Word) << 16) | ((b3 as Word) << 24)
  }

  lemma WordBytesJoin(w: Word)
    ensures JoinWord(WordByte(w, 0), WordByte(w, 1), WordByte(w, 2), WordByte(w, 3)) == w
  {
  }

  // The keystream is the blocks of consecutive counters, their words in little-endian order.
  lemma KeystreamWord(s: State, k: nat, j: nat)
    requires j < 16
    ensures var p := 64 * k + 4 * j;
            JoinWord(KeyByte(s, p), KeyByte(s, p + 1), KeyByte(s, p + 2), KeyByte(s, p + 3)) ==
            BlockWords(s[12 := CounterAfter(s[12], k)])[j]
  {
    hide JoinWord, WordByte, BlockWords, CounterAfter, KeyByte;
    KeyByteIs(s, k, j, 0); KeyByteIs(s, k, j, 1); KeyByteIs(s, k, j, 2); KeyByteIs(s, k, j, 3);
    WordBytesJoin(BlockWords(s[12 := CounterAfter(s[12], k)])[j]);
  }

  lemma KeyByteIs(s: State, k: nat, j: nat, q: nat)
    requires j < 16 && q < 4
    ensures KeyByte(s, 64 * k + 4 * j + q) == WordByte(BlockWords(s[12 := CounterAfter(s[12], k)])[j], q)
  {
    hide WordByte, BlockWords, CounterAfter;
    BytePlace(k, j, q);
  }

  lemma {:induction false} CounterAfterAdds(counter: Word, m: nat, n: nat)
    ensures CounterAfter(CounterAfter(counter, m), n) == CounterAfter(counter, m + n)
  {
    if n > 0 { CounterAfterAdds(counter, m, n - 1); }
  }

  lemma CounterAfterFew(counter: Word)
    ensures CounterAfter(counter, 0) == Add(counter, 0) && CounterAfter(counter, 1) == Add(counter, 1)
    ensures CounterAfter(counter, 2) == Add(counter, 2) && CounterAfter(counter, 3) == Add(counter, 3)
    ensures CounterAfter(counter, 4) == Add(counter, 4) && CounterAfter(counter, 5) == Add(counter, 5)
    ensures CounterAfter(counter, 6) == Add(counter, 6) && CounterAfter(counter, 7) == Add(counter, 7)
    ensures CounterAfter(counter, 8) == Add(counter, 8)
  {
    hide CounterAfter, Add;
    CounterNone(counter);
    CounterNext(counter, 0, 0); CounterNext(counter, 1, 1); CounterNext(counter, 2, 2); CounterNext(counter, 3, 3);
    CounterNext(counter, 4, 4); CounterNext(counter, 5, 5); CounterNext(counter, 6, 6); CounterNext(counter, 7, 7);
  }

  // The counter wraps at 32 bits.
  lemma CounterExample()
    ensures CounterAfter(1, 2) == 3 && CounterAfter(0xffff_ffff, 1) == 0
  {
    hide CounterAfter;
    CounterAfterFew(1);
    CounterAfterFew(0xffff_ffff);
  }

  lemma CounterNone(counter: Word)
    ensures CounterAfter(counter, 0) == Add(counter, 0)
  {
  }

  lemma CounterNext(counter: Word, n: nat, w: Word)
    requires CounterAfter(counter, n) == Add(counter, w)
    ensures CounterAfter(counter, n + 1) == Add(counter, w + 1)
  {
  }

  // ----- vector operations, lane by lane -----

  // R4_16: the 16-bit halves swapped.
  function SwapHalves(w: Word): Word {
    ((w & 0xffff) << 16) | (w >> 16)
  }

  // R4 and R8: a shift each way.
  function ShiftOr(w: Word, n: nat): Word
    requires 0 < n < 32
  {
    (w << n) | (w >> (32 - n))
  }

  function ByteOf(w: Word, i: nat): Word
    requires i < 4
  {
    if i == 0 then w & 0xff
    else if i == 1 then (w >> 8) & 0xff
    else if i == 2 then (w >> 16) & 0xff
    else (w >> 24) & 0xff
  }

  // _mm256_shuffle_epi8 within a word: byte i comes from byte from_i.
  function ShuffleBytes(w: Word, from0: nat, from1: nat, from2: nat, from3: nat): Word
    requires from0 < 4 && from1 < 4 && from2 < 4 && from3 < 4
  {
    ByteOf(w, from0) | (ByteOf(w, from1) << 8) | (ByteOf(w, from2) << 16) | (ByteOf(w, from3) << 24)
  }

  function QuarterSse(q: Four): Four {
    var a := Add(q.a, q.b); var d := SwapHalves(Xor(q.d, a));
    var c := Add(q.c, d);   var b := ShiftOr(Xor(q.b, c), 12);
    var a' := Add(a, b);    var d' := ShiftOr(Xor(d, a'), 8);
    var c' := Add(c, d');   var b' := ShiftOr(Xor(b, c'), 7);
    Four(a', b', c', d')
  }

  // rot16 and rot8 are byte shuffles.
  function QuarterAvx(q: Four): Four {
    var a := Add(q.a, q.b); var d := ShuffleBytes(Xor(q.d, a), 2, 3, 0, 1);
    var c := Add(q.c, d);   var b := ShiftOr(Xor(q.b, c), 12);
    var a' := Add(a, b);    var d' := ShuffleBytes(Xor(d, a'), 3, 0, 1, 2);
    var c' := Add(c, d');   var b' := ShiftOr(Xor(b, c'), 7);
    Four(a', b', c', d')
  }

  lemma ShiftsAgree(w: Word)
    ensures SwapHalves(w) == Rotl(w, 16)
    ensures ShiftOr(w, 12) == Rotl(w, 12) && ShiftOr(w, 8) == Rotl(w, 8) && ShiftOr(w, 7) == Rotl(w, 7)
  {
  }

  lemma ShufflesAgree(w: Word)
    ensures ShuffleBytes(w, 2, 3, 0, 1) == Rotl(w, 16)
    ensures ShuffleBytes(w, 3, 0, 1, 2) == Rotl(w, 8)
  {
  }

  lemma QuartersAgree(q: Four)
    ensures QuarterSse(q) == Quarter(q) && QuarterAvx(q) == Quarter(q)
  {
    hide SwapHalves, ShiftOr, ShuffleBytes, Rotl, Add, Xor;
    var a := Add(q.a, q.b);
    ShiftsAgree(Xor(q.d, a)); ShufflesAgree(Xor(q.d, a));
    var d := Rotl(Xor(q.d, a), 16);
    var c := Add(q.c, d);
    ShiftsAgree(Xor(q.b, c));
    var b := Rotl(Xor(q.b, c), 12);
    var a' := Add(a, b);
    ShiftsAgree(Xor(d, a')); ShufflesAgree(Xor(d, a'));
    var d' := Rotl(Xor(d, a'), 8);
    var c' := Add(c, d');
    ShiftsAgree(Xor(b, c'));
  }

  // ----- vectors -----

  // x[j] holds word j of n blocks.
  type Vector = seq<Word>

  ghost predicate Vectors(x: seq<Vector>, n: nat) {
    |x| == 16 && forall j :: 0 <= j < 16 ==> |x[j]| == n
  }

  // The state of block k.
  ghost function Lane(x: seq<Vector>, n: nat, k: nat): State
    requires Vectors(x, n) && k < n
  {
    seq(16, j requires 0 <= j < 16 => x[j][k])
  }

  // QR4 (four lanes) and QR8 (eight) on four of the vectors.
  method QuarterVectors(x: seq<Vector>, n: nat, i: nat, j: nat, k: nat, l: nat) returns (y: seq<Vector>)
    requires Vectors(x, n) && (n == 4 || n == 8)
    requires i < 16 && j < 16 && k < 16 && l < 16 && i != j && i != k && i != l && j != k && j != l && k != l
    ensures Vectors(y, n)
    ensures forall m :: 0 <= m < n ==> Lane(y, n, m) == QuarterRound(Lane(x, n, m), i, j, k, l)
  {
    hide Quarter, QuarterSse, QuarterAvx, QuarterRound, Lane;
    var a, b, c, d := [], [], [], [];
    for m := 0 to n
      invariant |a| == m && |b| == m && |c| == m && |d| == m
      invariant forall p :: 0 <= p < m ==>
        Four(a[p], b[p], c[p], d[p]) == Quarter(Four(x[i][p], x[j][p], x[k][p], x[l][p]))
    {
      var q := Four(x[i][m], x[j][m], x[k][m], x[l][m]);
      QuartersAgree(q);
      var r := if n == 4 then QuarterSse(q) else QuarterAvx(q);
      a, b, c, d := a + [r.a], b + [r.b], c + [r.c], d + [r.d];
    }
    y := x[i := a][j := b][k := c][l := d];
    QuartersPlaced(x, n, i, j, k, l, a, b, c, d);
  }

  lemma QuartersPlaced(x: seq<Vector>, n: nat, i: nat, j: nat, k: nat, l: nat, a: Vector, b: Vector, c: Vector, d: Vector)
    requires Vectors(x, n) && |a| == n && |b| == n && |c| == n && |d| == n
    requires i < 16 && j < 16 && k < 16 && l < 16 && i != j && i != k && i != l && j != k && j != l && k != l
    requires forall p :: 0 <= p < n ==> Four(a[p], b[p], c[p], d[p]) == Quarter(Four(x[i][p], x[j][p], x[k][p], x[l][p]))
    ensures var y := x[i := a][j := b][k := c][l := d];
            Vectors(y, n) && forall m :: 0 <= m < n ==> Lane(y, n, m) == QuarterRound(Lane(x, n, m), i, j, k, l)
  {
    hide Quarter;
    var y := x[i := a][j := b][k := c][l := d];
    forall m | 0 <= m < |a|
      ensures Lane(y, n, m) == QuarterRound(Lane(x, n, m), i, j, k, l)
    {
      var s := Lane(x, n, m);
      assert Four(a[m], b[m], c[m], d[m]) == Quarter(Four(s[i], s[j], s[k], s[l]));
    }
  }

  // Ten times eight quarter rounds.
  method RoundVectors(x0: seq<Vector>, n: nat) returns (x: seq<Vector>)
    requires Vectors(x0, n) && (n == 4 || n == 8)
    ensures Vectors(x, n)
    ensures forall m :: 0 <= m < n ==> Lane(x, n, m) == DoubleRounds(10, Lane(x0, n, m))
  {
    hide QuarterRound, Lane, DoubleRounds;
    x := x0;
    RoundsOfNone(x0, n);
    for i := 0 to 10
      invariant Vectors(x, n)
      invariant forall m :: 0 <= m < n ==> Lane(x, n, m) == DoubleRounds(i, Lane(x0, n, m))
    {
      ghost var before := x;
      x := QuarterVectors(x, n, 0, 4, 8, 12);
      x := QuarterVectors(x, n, 1, 5, 9, 13);
      x := QuarterVectors(x, n, 2, 6, 10, 14);
      x := QuarterVectors(x, n, 3, 7, 11, 15);
      x := QuarterVectors(x, n, 0, 5, 10, 15);
      x := QuarterVectors(x, n, 1, 6, 11, 12);
      x := QuarterVectors(x, n, 2, 7, 8, 13);
      x := QuarterVectors(x, n, 3, 4, 9, 14);
      forall m | 0 <= m < n
        ensures Lane(x, n, m) == DoubleRounds(i + 1, Lane(x0, n, m))
      {
        OneMoreRound(i, Lane(x0, n, m));
      }
    }
  }

  lemma RoundsOfNone(x: seq<Vector>, n: nat)
    requires Vectors(x, n)
    ensures forall m :: 0 <= m < n ==> Lane(x, n, m) == DoubleRounds(0, Lane(x, n, m))
  {
    hide Lane;
  }

  lemma OneMoreRound(i: nat, s: State)
    ensures DoubleRounds(i + 1, s) == DiagonalRound(ColumnRound(DoubleRounds(i, s)))
  {
    hide QuarterRound;
  }

  // set1(ctr) plus 0, 1, 2, ...
  function CounterLanes(ctr: Word, n: nat): (v: Vector)
    requires n == 4 || n == 8
    ensures |v| == n
  {
    if n == 4 then [Add(ctr, 0), Add(ctr, 1), Add(ctr, 2), Add(ctr, 3)]
    else [Add(ctr, 0), Add(ctr, 1), Add(ctr, 2), Add(ctr, 3), Add(ctr, 4), Add(ctr, 5), Add(ctr, 6), Add(ctr, 7)]
  }

  lemma CounterLane(ctr: Word, n: nat, m: nat)
    requires (n == 4 || n == 8) && m < n
    ensures CounterLanes(ctr, n)[m] == CounterAfter(ctr, m)
  {
    hide Add, CounterAfter;
    CounterAfterFew(ctr);
    var v := CounterLanes(ctr, n);
    assert v[0] == Add(ctr, 0) && v[1] == Add(ctr, 1) && v[2] == Add(ctr, 2) && v[3] == Add(ctr, 3);
    if m >= 4 {
      assert v[4] == Add(ctr, 4) && v[5] == Add(ctr, 5) && v[6] == Add(ctr, 6) && v[7] == Add(ctr, 7);
    }
  }

  // The input of the blocks: the counters differ, the other words are the same.
  function InputVectors(ctr: Word, s: State, n: nat): seq<Vector>
    requires n == 4 || n == 8
  {
    seq(16, j requires 0 <= j < 16 => if j == 12 then CounterLanes(ctr, n) else seq(n, _ => s[j]))
  }

  lemma InputShape(ctr: Word, s: State, n: nat)
    requires n == 4 || n == 8
    ensures Vectors(InputVectors(ctr, s, n), n)
  {
    hide CounterLanes;
  }

  lemma InputLanes(ctr: Word, s: State, n: nat, m: nat)
    requires (n == 4 || n == 8) && m < n && Vectors(InputVectors(ctr, s, n), n)
    ensures Lane(InputVectors(ctr, s, n), n, m) == s[12 := CounterAfter(ctr, m)]
  {
    hide CounterLanes, CounterAfter;
    CounterLane(ctr, n, m);
    var v := InputVectors(ctr, s, n);
    forall j | 0 <= j < 16 && j != 12
      ensures v[j][m] == s[j]
    {
    }
  }

  // The keystream words of n blocks.
  method BlockVectors(ctr: Word, s: State, n: nat) returns (x: seq<Vector>)
    requires n == 4 || n == 8
    ensures Vectors(x, n)
    ensures forall m :: 0 <= m < n ==> Lane(x, n, m) == BlockWords(s[12 := CounterAfter(ctr, m)])
  {
    hide DoubleRounds, Add, CounterAfter, InputVectors;
    var in_ := InputVectors(ctr, s, n);
    InputShape(ctr, s, n);
    forall m | 0 <= m < n
      ensures Lane(in_, n, m) == s[12 := CounterAfter(ctr, m)]
    {
      InputLanes(ctr, s, n, m);
    }
    var y := RoundVectors(in_, n);
    x := seq(16, j requires 0 <= j < 16 => seq(n, m requires 0 <= m < n => Add(y[j][m], in_[j][m])));
    forall m | 0 <= m < n
      ensures Lane(x, n, m) == BlockWords(s[12 := CounterAfter(ctr, m)])
    {
      var b := Lane(in_, n, m);
      forall j | 0 <= j < 16
        ensures Lane(x, n, m)[j] == BlockWords(b)[j]
      {
        assert Lane(y, n, m)[j] == y[j][m] && b[j] == in_[j][m];
      }
    }
  }

  // ----- transposes -----

  // _mm_unpacklo_epi32 and the rest, on 128 bits.
  function UnpackLo32(a: Vector, b: Vector): Vector
    requires |a| == 4 && |b| == 4
  {
    [a[0], b[0], a[1], b[1]]
  }

  function UnpackHi32(a: Vector, b: Vector): Vector
    requires |a| == 4 && |b| == 4
  {
    [a[2], b[2], a[3], b[3]]
  }

  function UnpackLo64(a: Vector, b: Vector): Vector
    requires |a| == 4 && |b| == 4
  {
    [a[0], a[1], b[0], b[1]]
  }

  function UnpackHi64(a: Vector, b: Vector): Vector
    requires |a| == 4 && |b| == 4
  {
    [a[2], a[3], b[2], b[3]]
  }

  // T4: the four results in order.
  function Transpose4(v0: Vector, v1: Vector, v2: Vector, v3: Vector): seq<Vector>
    requires |v0| == 4 && |v1| == 4 && |v2| == 4 && |v3| == 4
  {
    var t0, t1 := UnpackLo32(v0, v1), UnpackLo32(v2, v3);
    var t2, t3 := UnpackHi32(v0, v1), UnpackHi32(v2, v3);
    [UnpackLo64(t0, t1), UnpackHi64(t0, t1), UnpackLo64(t2, t3), UnpackHi64(t2, t3)]
  }

  // T8: the same in each 128-bit half.
  function Transpose8(v0: Vector, v1: Vector, v2: Vector, v3: Vector): seq<Vector>
    requires |v0| == 8 && |v1| == 8 && |v2| == 8 && |v3| == 8
  {
    var lo := Transpose4(v0[..4], v1[..4], v2[..4], v3[..4]);
    var hi := Transpose4(v0[4..], v1[4..], v2[4..], v3[4..]);
    [lo[0] + hi[0], lo[1] + hi[1], lo[2] + hi[2], lo[3] + hi[3]]
  }

  lemma TransposeTurns(v0: Vector, v1: Vector, v2: Vector, v3: Vector)
    requires |v0| == 4 && |v1| == 4 && |v2| == 4 && |v3| == 4
    ensures |Transpose4(v0, v1, v2, v3)| == 4
    ensures forall k :: 0 <= k < 4 ==> Transpose4(v0, v1, v2, v3)[k] == [v0[k], v1[k], v2[k], v3[k]]
  {
  }

  // Words 4g to 4g+3 of a block.
  function Quad(b: State, g: nat): (q: Vector)
    requires g < 4
    ensures |q| == 4
  {
    b[4 * g..4 * g + 4]
  }

  // Result k of transposing quad g: the quad of block k, and of block k + 4 above it.
  ghost function Turned(x: seq<Vector>, n: nat, g: nat, k: nat): Vector
    requires Vectors(x, n) && (n == 4 || n == 8) && g < 4 && k < 4
  {
    if n == 4 then Quad(Lane(x, n, k), g) else Quad(Lane(x, n, k), g) + Quad(Lane(x, n, k + 4), g)
  }

  method TransposeQuad(x: seq<Vector>, n: nat, g: nat) returns (t: seq<Vector>)
    requires Vectors(x, n) && (n == 4 || n == 8) && g < 4
    ensures |t| == 4 && forall k :: 0 <= k < 4 ==> t[k] == Turned(x, n, g, k)
  {
    var v0, v1, v2, v3 := x[4 * g], x[4 * g + 1], x[4 * g + 2], x[4 * g + 3];
    if n == 4 {
      TransposeTurns(v0, v1, v2, v3);
      t := Transpose4(v0, v1, v2, v3);
    } else {
      TransposeTurns(v0[..4], v1[..4], v2[..4], v3[..4]);
      TransposeTurns(v0[4..], v1[4..], v2[4..], v3[4..]);
      t := Transpose8(v0, v1, v2, v3);
    }
    forall k | 0 <= k < 4
      ensures t[k] == Turned(x, n, g, k)
    {
      QuadOfLane(x, n, k, g);
      if n == 8 { QuadOfLane(x, n, k + 4, g); }
    }
  }

  lemma QuadOfLane(x: seq<Vector>, n: nat, k: nat, g: nat)
    requires Vectors(x, n) && k < n && g < 4
    ensures Quad(Lane(x, n, k), g) == [x[4 * g][k], x[4 * g + 1][k], x[4 * g + 2][k], x[4 * g + 3][k]]
  {
  }

  // All four quads: result 4g + k.
  method TransposeAll(x: seq<Vector>, n: nat) returns (t: seq<Vector>)
    requires Vectors(x, n) && (n == 4 || n == 8)
    ensures |t| == 16 && forall g, k :: 0 <= g < 4 && 0 <= k < 4 ==> t[4 * g + k] == Turned(x, n, g, k)
  {
    hide Turned;
    t := [];
    for g := 0 to 4
      invariant |t| == 4 * g
      invariant forall h, k :: 0 <= h < g && 0 <= k < 4 ==> t[4 * h + k] == Turned(x, n, h, k)
    {
      var q := TransposeQuad(x, n, g);
      t := t + q;
    }
  }

  // ----- output -----

  function VectorBytes(v: Vector): (b: seq<Byte>)
    ensures |b| == 4 * |v|
  {
    seq(4 * |v|, p requires 0 <= p < 4 * |v| => WordByte(v[p / 4], p % 4))
  }

  lemma BytePlace(k: nat, f: nat, q: nat)
    requires 4 * f + q < 64
    ensures var p := 64 * k + 4 * f + q;
            p / 64 == k && p % 64 / 4 == f + q / 4 && p % 4 == q % 4
  {
    var r := 4 * f + q;
    Quotient(64 * k + r, 64, k, r);
    Quotient(r, 4, f + q / 4, q % 4);
    Quotient(64 * k + r, 4, 16 * k + f + q / 4, q % 4);
  }

  // The bytes of words f to f + n - 1 of block k.
  lemma WordsBytes(s: State, k: nat, b: State, f: nat, n: nat, q: nat)
    requires f + n <= 16 && q < 4 * n && b == BlockWords(s[12 := CounterAfter(s[12], k)])
    ensures VectorBytes(b[f..f + n])[q] == KeyByte(s, 64 * k + 4 * f + q)
  {
    hide WordByte, BlockWords, CounterAfter;
    BytePlace(k, f, q);
  }

  // From inp0 and out0: the bytes in [at, hi) and [at + 256, hi') carry the keystream that starts at at;
  // the rest of out, and of inp as far as it is still to be read, is as it was.
  ghost predicate Reached(s: State, at: nat, inp0: seq<Byte>, out0: seq<Byte>, inp: seq<Byte>, out: seq<Byte>,
                          hi: nat, hi': nat) {
    && |inp| == |inp0| && |out| == |out0| && at <= hi <= at + 256 <= hi' <= |inp| && hi' <= |out|
    && (forall p :: 0 <= p < |out| ==>
          out[p] == if at <= p < hi || at + 256 <= p < hi' then inp0[p] ^ KeyByte(s, p - at) else out0[p])
    && (forall p :: 0 <= p < |inp| && !(at <= p < hi || at + 256 <= p < hi') ==> inp[p] == inp0[p])
  }

  // Words of one block, to their place: at the end of the first range, or of the second.
  method StoreWords(ghost s: State, k: nat, ghost b: State, f: nat, n: nat, ks: seq<Byte>,
                    ghost inp0: seq<Byte>, ghost out0: seq<Byte>, inp: array<Byte>, out: array<Byte>, at: nat,
                    ghost hi: nat, ghost hi': nat)
    requires f + n <= 16 && b == BlockWords(s[12 := CounterAfter(s[12], k)]) && ks == VectorBytes(b[f..f + n])
    requires at + 64 * k + 4 * (f + n) <= inp.Length && at + 64 * k + 4 * (f + n) <= out.Length
    requires Reached(s, at, inp0, out0, inp[..], out[..], hi, hi')
    requires if k < 4 then hi == at + 64 * k + 4 * f else hi' == at + 64 * k + 4 * f
    modifies out
    ensures Reached(s, at, inp0, out0, inp[..], out[..],
                    if k < 4 then hi + 4 * n else hi, if k < 4 then hi' else hi' + 4 * n)
  {
    hide KeyByte, BlockWords, CounterAfter, VectorBytes;
    var o := at + 64 * k + 4 * f;
    CM.XorStore(inp, out, o, ks, 4 * n);
    forall p | o <= p < o + 4 * n
      ensures out[p] == inp0[p] ^ KeyByte(s, p - at)
    {
      WordsBytes(s, k, b, f, n, p - o);
    }
  }

  lemma CounterReplaced(s: State, ctr: Word, k: nat)
    ensures var s' := s[12 := ctr];
            s'[12 := CounterAfter(s'[12], k)] == s[12 := CounterAfter(ctr, k)]
  {
  }

  lemma ReachedStart(s: State, at: nat, inp: seq<Byte>, out: seq<Byte>)
    requires at + 256 <= |inp| && at + 256 <= |out|
    ensures Reached(s, at, inp, out, inp, out, at, at + 256)
  {
  }

  // cc_xor4
  method Xor4(ctr: Word, s: State, inp: array<Byte>, out: array<Byte>, at: nat)
    requires at + 256 <= inp.Length && at + 256 <= out.Length
    modifies out
    ensures Reached(s[12 := ctr], at, old(inp[..]), old(out[..]), inp[..], out[..], at + 256, at + 256)
  {
    hide Reached, BlockWords, CounterAfter, Quad, VectorBytes, Lane;
    ghost var inp0, out0 := inp[..], out[..];
    var x := BlockVectors(ctr, s, 4);
    var t := TransposeAll(x, 4);
    ghost var s' := s[12 := ctr];
    ReachedStart(s', at, inp0, out0);
    for k := 0 to 4
      invariant Reached(s', at, inp0, out0, inp[..], out[..], at + 64 * k, at + 256)
    {
      CounterReplaced(s, ctr, k);
      ghost var b := Lane(x, 4, k);
      for g := 0 to 4
        invariant Reached(s', at, inp0, out0, inp[..], out[..], at + 64 * k + 16 * g, at + 256)
      {
        assert t[4 * g + k] == Turned(x, 4, g, k);
        QuadIs(b, g);
        StoreWords(s', k, b, 4 * g, 4, VectorBytes(t[4 * g + k]), inp0, out0, inp, out, at, at + 64 * k + 16 * g, at + 256);
      }
    }
  }

  lemma QuadIs(b: State, g: nat)
    requires g < 4
    ensures Quad(b, g) == b[4 * g..4 * g + 4]
  {
  }

  // _mm256_permute2x128_si256: 0x20 joins the low halves, 0x31 the high halves.
  function JoinLow(a: Vector, b: Vector): Vector
    requires |a| == 8 && |b| == 8
  {
    a[..4] + b[..4]
  }

  function JoinHigh(a: Vector, b: Vector): Vector
    requires |a| == 8 && |b| == 8
  {
    a[4..] + b[4..]
  }

  lemma Joined(x: seq<Vector>, k: nat, g: nat)
    requires Vectors(x, 8) && k < 4 && g < 3
    ensures var a, b := Turned(x, 8, g, k), Turned(x, 8, g + 1, k);
            |a| == 8 && |b| == 8 &&
            JoinLow(a, b) == Lane(x, 8, k)[4 * g..4 * g + 8] && JoinHigh(a, b) == Lane(x, 8, k + 4)[4 * g..4 * g + 8]
  {
    hide Lane;
    QuadIs(Lane(x, 8, k), g); QuadIs(Lane(x, 8, k), g + 1);
    QuadIs(Lane(x, 8, k + 4), g); QuadIs(Lane(x, 8, k + 4), g + 1);
  }

  // cc_xor8
  method Xor8(ctr: Word, s: State, inp: array<Byte>, out: array<Byte>, at: nat)
    requires at + 512 <= inp.Length && at + 512 <= out.Length
    modifies out
    ensures Reached(s[12 := ctr], at, old(inp[..]), old(out[..]), inp[..], out[..], at + 256, at + 512)
  {
    hide Reached, BlockWords, CounterAfter, VectorBytes, Lane, Turned, JoinLow, JoinHigh;
    ghost var inp0, out0 := inp[..], out[..];
    var x := BlockVectors(ctr, s, 8);
    var t := TransposeAll(x, 8);
    ghost var s' := s[12 := ctr];
    ReachedStart(s', at, inp0, out0);
    for k := 0 to 4
      invariant Reached(s', at, inp0, out0, inp[..], out[..], at + 64 * k, at + 256 + 64 * k)
    {
      CounterReplaced(s, ctr, k);
      CounterReplaced(s, ctr, k + 4);
      assert t[4 * 0 + k] == Turned(x, 8, 0, k) && t[4 * 1 + k] == Turned(x, 8, 1, k);
      assert t[4 * 2 + k] == Turned(x, 8, 2, k) && t[4 * 3 + k] == Turned(x, 8, 3, k);
      Joined(x, k, 0);
      Joined(x, k, 2);
      ghost var b, c := Lane(x, 8, k), Lane(x, 8, k + 4);
      var lo, hi := at + 64 * k, at + 256 + 64 * k;
      StoreWords(s', k, b, 0, 8, VectorBytes(JoinLow(t[k], t[4 + k])), inp0, out0, inp, out, at, lo, hi);
      StoreWords(s', k, b, 8, 8, VectorBytes(JoinLow(t[8 + k], t[12 + k])), inp0, out0, inp, out, at, lo + 32, hi);
      StoreWords(s', k + 4, c, 0, 8, VectorBytes(JoinHigh(t[k], t[4 + k])), inp0, out0, inp, out, at, lo + 64, hi);
      StoreWords(s', k + 4, c, 8, 8, VectorBytes(JoinHigh(t[8 + k], t[12 + k])), inp0, out0, inp, out, at, lo + 64, hi + 32);
    }
  }

  // ----- the whole call -----

  // The bytes before done carry the keystream; the rest of out, and of inp up to len, is as it was.
  ghost predicate Prefix(s: State, inp0: seq<Byte>, out0: seq<Byte>, inp: seq<Byte>, out: seq<Byte>, done: nat, len: nat) {
    && |inp| == |inp0| && |out| == |out0| && done <= len <= |inp| && len <= |out|
    && (forall p :: 0 <= p < |out| ==> out[p] == if p < done then inp0[p] ^ KeyByte(s, p) else out0[p])
    && (forall p :: done <= p < len ==> inp[p] == inp0[p])
  }

  lemma KeyByteFrom(s: State, blocks: nat, p: nat)
    ensures KeyByte(s[12 := CounterAfter(s[12], blocks)], p) == KeyByte(s, 64 * blocks + p)
  {
    hide WordByte, BlockWords, CounterAfter;
    CounterAfterAdds(s[12], blocks, p / 64);
    LaterByte(blocks, p);
    var s' := s[12 := CounterAfter(s[12], blocks)];
    assert s'[12 := CounterAfter(s[12], blocks + p / 64)] == s[12 := CounterAfter(s[12], blocks + p / 64)];
  }

  lemma LaterByte(blocks: nat, p: nat)
    ensures (64 * blocks + p) / 64 == blocks + p / 64
    ensures (64 * blocks + p) % 64 == p % 64 && (64 * blocks + p) % 4 == p % 4
  {
    Quotient(64 * blocks + p, 64, blocks + p / 64, p % 64);
    Quotient(64 * blocks + p, 4, 16 * blocks + p / 4, p % 4);
  }

  // One vector group extends the prefix.
  lemma PrefixExtends(s: State, inp0: seq<Byte>, out0: seq<Byte>, inp1: seq<Byte>, out1: seq<Byte>,
                      inp2: seq<Byte>, out2: seq<Byte>, done: nat, len: nat, n: nat)
    requires Prefix(s, inp0, out0, inp1, out1, done, len) && done % 64 == 0 && (n == 256 || n == 512) && done + n <= len
    requires Reached(s[12 := CounterAfter(s[12], done / 64)], done, inp1, out1, inp2, out2, done + 256, done + n)
    ensures Prefix(s, inp0, out0, inp2, out2, done + n, len)
  {
    hide KeyByte, CounterAfter;
    forall p | done <= p < done + n
      ensures out2[p] == inp0[p] ^ KeyByte(s, p)
    {
      KeyByteFrom(s, done / 64, p - done);
    }
  }

  // proven_sys_chacha20_xor. inp may be out.
  method XorStream(s: State, inp: array<Byte>, out: array<Byte>, len: nat, width: nat) returns (done: nat)
    requires len <= inp.Length && len <= out.Length
    modifies out
    ensures done == len || (done % 64 == 0 && done <= len <= done + 128)
    ensures forall p :: 0 <= p < done ==> out[p] == old(inp[p]) ^ KeyByte(s, p)
    ensures forall p :: done <= p < out.Length ==> out[p] == old(out[p])
  {
    hide KeyByte, CounterAfter, Reached, Prefix;
    ghost var inp0, out0 := inp[..], out[..];
    var ctr := s[12];
    done := 0;
    CounterZero(ctr);
    PrefixStart(s, inp0, out0, len);
    while width >= 8 && len - done >= 512
      invariant 0 <= done <= len && done % 64 == 0
      invariant ctr == CounterAfter(s[12], done / 64)
      invariant Prefix(s, inp0, out0, inp[..], out[..], done, len)
    {
      ghost var inp1, out1 := inp[..], out[..];
      Xor8(ctr, s, inp, out, done);
      PrefixExtends(s, inp0, out0, inp1, out1, inp[..], out[..], done, len, 512);
      CounterMoves(s[12], ctr, done, 8);
      done, ctr := done + 512, Add(ctr, 8);
    }
    while len - done >= 256
      invariant 0 <= done <= len && done % 64 == 0
      invariant ctr == CounterAfter(s[12], done / 64)
      invariant Prefix(s, inp0, out0, inp[..], out[..], done, len)
    {
      ghost var inp1, out1 := inp[..], out[..];
      Xor4(ctr, s, inp, out, done);
      PrefixExtends(s, inp0, out0, inp1, out1, inp[..], out[..], done, len, 256);
      CounterMoves(s[12], ctr, done, 4);
      done, ctr := done + 256, Add(ctr, 4);
    }
    if len - done > 128 {
      XorTail(ctr, s, inp0, out0, inp, out, done, len);
      done := len;
    }
    PrefixDone(s, inp0, out0, inp[..], out[..], done, len);
  }

  lemma CounterZero(ctr: Word)
    ensures CounterAfter(ctr, 0) == ctr
  {
  }

  lemma CounterMoves(start: Word, ctr: Word, done: nat, blocks: nat)
    requires ctr == CounterAfter(start, done / 64) && (blocks == 4 || blocks == 8)
    ensures Add(ctr, if blocks == 4 then 4 else 8) == CounterAfter(start, (done + 64 * blocks) / 64)
  {
    hide CounterAfter, Add;
    CounterAfterFew(ctr);
    CounterAfterAdds(start, done / 64, blocks);
    assert (done + 64 * blocks) / 64 == done / 64 + blocks;
  }

  lemma PrefixStart(s: State, inp: seq<Byte>, out: seq<Byte>, len: nat)
    requires len <= |inp| && len <= |out|
    ensures Prefix(s, inp, out, inp, out, 0, len)
  {
  }

  lemma PrefixDone(s: State, inp0: seq<Byte>, out0: seq<Byte>, inp: seq<Byte>, out: seq<Byte>, done: nat, len: nat)
    requires Prefix(s, inp0, out0, inp, out, done, len)
    ensures |out| == |out0| && done <= |inp0| && done <= |out|
    ensures forall p :: 0 <= p < done ==> out[p] == inp0[p] ^ KeyByte(s, p)
    ensures forall p :: done <= p < |out| ==> out[p] == out0[p]
  {
    hide KeyByte;
  }

  // Fewer than 256 bytes: the keystream of four blocks into a buffer of zeros, then byte by byte.
  method XorTail(ctr: Word, s: State, ghost inp0: seq<Byte>, ghost out0: seq<Byte>,
                 inp: array<Byte>, out: array<Byte>, done: nat, len: nat)
    requires done % 64 == 0 && ctr == CounterAfter(s[12], done / 64)
    requires done < len < done + 256 && len <= inp.Length && len <= out.Length
    requires Prefix(s, inp0, out0, inp[..], out[..], done, len)
    modifies out
    ensures Prefix(s, inp0, out0, inp[..], out[..], len, len)
  {
    hide KeyByte, CounterAfter, Reached, Prefix;
    var ks := new Byte[256](_ => 0);
    ghost var zeros := ks[..];
    Xor4(ctr, s, ks, ks, 0);
    TailKeystream(s, ctr, done, zeros, ks[..]);
    for i := 0 to len - done
      invariant Prefix(s, inp0, out0, inp[..], out[..], done + i, len)
      invariant forall j :: 0 <= j < 256 ==> ks[j] == KeyByte(s, done + j)
    {
      ghost var inp1, out1 := inp[..], out[..];
      PrefixRead(s, inp0, out0, inp1, out1, done + i, len);
      out[done + i] := inp[done + i] ^ ks[i];
      PrefixByte(s, inp0, out0, inp1, out1, inp[..], out[..], done + i, len);
    }
  }

  lemma TailKeystream(s: State, ctr: Word, done: nat, zeros: seq<Byte>, ks: seq<Byte>)
    requires done % 64 == 0 && ctr == CounterAfter(s[12], done / 64)
    requires |zeros| == 256 && forall i :: 0 <= i < 256 ==> zeros[i] == 0
    requires Reached(s[12 := ctr], 0, zeros, zeros, ks, ks, 256, 256)
    ensures forall i :: 0 <= i < 256 ==> ks[i] == KeyByte(s, done + i)
  {
    hide KeyByte, CounterAfter;
    forall i | 0 <= i < 256
      ensures ks[i] == KeyByte(s, done + i)
    {
      KeyByteFrom(s, done / 64, i);
      assert 0 ^ KeyByte(s, done + i) == KeyByte(s, done + i);
    }
  }

  lemma PrefixRead(s: State, inp0: seq<Byte>, out0: seq<Byte>, inp: seq<Byte>, out: seq<Byte>, done: nat, len: nat)
    requires Prefix(s, inp0, out0, inp, out, done, len) && done < len
    ensures done < |inp| && done < |inp0| && inp[done] == inp0[done]
  {
    hide KeyByte;
  }

  lemma PrefixByte(s: State, inp0: seq<Byte>, out0: seq<Byte>, inp1: seq<Byte>, out1: seq<Byte>,
                   inp2: seq<Byte>, out2: seq<Byte>, done: nat, len: nat)
    requires Prefix(s, inp0, out0, inp1, out1, done, len) && done < len
    requires |out2| == |out1| && out2 == out1[done := inp1[done] ^ KeyByte(s, done)]
    requires inp2 == inp1 || (inp2 == out2 && inp1 == out1)
    ensures Prefix(s, inp0, out0, inp2, out2, done + 1, len)
  {
    hide KeyByte;
  }
}
