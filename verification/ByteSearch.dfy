// The freestanding byte search and move of platform/proven_sys_mem.h.
module ByteSearch {
  import opened Bytes

  const ONES: bv64 := 0x0101_0101_0101_0101
  const HIGHS: bv64 := 0x8080_8080_8080_8080

  // Nonzero where a byte of x is zero: borrows only start at a zero byte.
  function ZeroTest(x: bv64): bv64 { (x - ONES) & !x & HIGHS }

  // One more byte below the others.
  function Put(b: Byte, above: bv64): bv64 { (above << 8) | (b as bv64) }

  // The word with these bytes, lowest first.
  function Join(b0: Byte, b1: Byte, b2: Byte, b3: Byte, b4: Byte, b5: Byte, b6: Byte, b7: Byte): bv64 {
    Put(b0, Put(b1, Put(b2, Put(b3, Put(b4, Put(b5, Put(b6, Put(b7, 0))))))))
  }

  // The test of the word with these bytes, lowest first, against eight copies of the target.
  predicate JoinTest(b0: Byte, b1: Byte, b2: Byte, b3: Byte, b4: Byte, b5: Byte, b6: Byte, b7: Byte, t: Byte)
    ensures JoinTest(b0, b1, b2, b3, b4, b5, b6, b7, t) ==
            (b0 == t || b1 == t || b2 == t || b3 == t || b4 == t || b5 == t || b6 == t || b7 == t)
  {
    hide ZeroTest, Join, Xor, Copies;
    ZeroTestSees(b0, b1, b2, b3, b4, b5, b6, b7, t);
    ZeroTest(Xor(Join(b0, b1, b2, b3, b4, b5, b6, b7), Copies(t))) != 0
  }

  lemma ZeroTestSees(b0: Byte, b1: Byte, b2: Byte, b3: Byte, b4: Byte, b5: Byte, b6: Byte, b7: Byte, t: Byte)
    ensures ZeroTest(Xor(Join(b0, b1, b2, b3, b4, b5, b6, b7), Copies(t))) != 0 <==>
            (b0 == t || b1 == t || b2 == t || b3 == t || b4 == t || b5 == t || b6 == t || b7 == t)
  {
    hide ZeroTest, Join, Xor, Differ, Copies;
    JoinDiffers(b0, b1, b2, b3, b4, b5, b6, b7, t);
    JoinZeroTest(Differ(b0, t), Differ(b1, t), Differ(b2, t), Differ(b3, t),
                 Differ(b4, t), Differ(b5, t), Differ(b6, t), Differ(b7, t));
    DifferIsZero(b0, t); DifferIsZero(b1, t); DifferIsZero(b2, t); DifferIsZero(b3, t);
    DifferIsZero(b4, t); DifferIsZero(b5, t); DifferIsZero(b6, t); DifferIsZero(b7, t);
  }

  function Xor(x: bv64, y: bv64): bv64 { x ^ y }

  function Differ(a: Byte, b: Byte): Byte { a ^ b }

  // The target in every byte.
  function Copies(t: Byte): bv64 { ONES * (t as bv64) }

  lemma DifferIsZero(a: Byte, b: Byte)
    ensures Differ(a, b) == 0 <==> a == b
  {
  }

  lemma CopiesAre(t: Byte)
    ensures Copies(t) == Join(t, t, t, t, t, t, t, t)
  {
  }

  lemma JoinDiffers(b0: Byte, b1: Byte, b2: Byte, b3: Byte, b4: Byte, b5: Byte, b6: Byte, b7: Byte, t: Byte)
    ensures Xor(Join(b0, b1, b2, b3, b4, b5, b6, b7), Copies(t)) ==
            Join(Differ(b0, t), Differ(b1, t), Differ(b2, t), Differ(b3, t),
                 Differ(b4, t), Differ(b5, t), Differ(b6, t), Differ(b7, t))
  {
    hide Put, Xor, Differ, Copies;
    CopiesAre(t);
    var a7, c7 := Put(b7, 0), Put(t, 0);
    var a6, c6 := Put(b6, a7), Put(t, c7);
    var a5, c5 := Put(b5, a6), Put(t, c6);
    var a4, c4 := Put(b4, a5), Put(t, c5);
    var a3, c3 := Put(b3, a4), Put(t, c4);
    var a2, c2 := Put(b2, a3), Put(t, c3);
    var a1, c1 := Put(b1, a2), Put(t, c2);
    XorOfNone();
    PutXor(b7, t, 0, 0); PutXor(b6, t, a7, c7); PutXor(b5, t, a6, c6); PutXor(b4, t, a5, c5);
    PutXor(b3, t, a4, c4); PutXor(b2, t, a3, c3); PutXor(b1, t, a2, c2); PutXor(b0, t, a1, c1);
  }

  lemma XorOfNone()
    ensures Xor(0, 0) == 0
  {
  }

  lemma PutXor(b: Byte, t: Byte, x: bv64, y: bv64)
    ensures Xor(Put(b, x), Put(t, y)) == Put(Differ(b, t), Xor(x, y))
  {
  }

  lemma JoinZeroTest(b0: Byte, b1: Byte, b2: Byte, b3: Byte, b4: Byte, b5: Byte, b6: Byte, b7: Byte)
    ensures ZeroTest(Join(b0, b1, b2, b3, b4, b5, b6, b7)) != 0 <==>
            (b0 == 0 || b1 == 0 || b2 == 0 || b3 == 0 || b4 == 0 || b5 == 0 || b6 == 0 || b7 == 0)
  {
  }

  // The test of eight bytes in memory order, on a machine of either byte order.
  predicate WordTest(b: seq<Byte>, little: bool, t: Byte)
    requires |b| == 8
  {
    if little then JoinTest(b[0], b[1], b[2], b[3], b[4], b[5], b[6], b[7], t)
    else JoinTest(b[7], b[6], b[5], b[4], b[3], b[2], b[1], b[0], t)
  }

  // It sees the target exactly when it is there.
  lemma WordTestIsExact(b: seq<Byte>, little: bool, t: Byte)
    requires |b| == 8
    ensures WordTest(b, little, t) <==> t in b
  {
    hide JoinTest;
    assert t in b <==> (b[0] == t || b[1] == t || b[2] == t || b[3] == t ||
                        b[4] == t || b[5] == t || b[6] == t || b[7] == t);
  }

  // (unsigned char)c
  function UnsignedChar(c: int): Byte { ToByte(c % 256) }

  lemma UnsignedCharIs(c: int)
    ensures UnsignedChar(c) as nat == c % 256
  {
    hide ToByte;
    ToByteIs(c % 256);
  }

  // The place of the first t among the first n bytes.
  ghost predicate IsFirst(s: seq<Byte>, n: nat, t: Byte, r: Option<nat>)
    requires n <= |s|
  {
    match r
    case Some(i) => i < n && s[i] == t && t !in s[..i]
    case None => t !in s[..n]
  }

  ghost predicate IsLast(s: seq<Byte>, n: nat, t: Byte, r: Option<nat>)
    requires n <= |s|
  {
    match r
    case Some(i) => i < n && s[i] == t && t !in s[i + 1..n]
    case None => t !in s[..n]
  }

  // proven_sys_mem_chr over a pointer p and a count n of what is left.
  method MemChr(s: array?<Byte>, c: int, size: nat, little: bool) returns (r: Option<nat>)
    requires s != null ==> size <= s.Length
    ensures s == null ==> r == None
    ensures s != null ==> IsFirst(s[..], size, UnsignedChar(c), r)
  {
    hide WordTest, UnsignedChar;
    if s == null || size == 0 {
      return None;
    }
    var target := UnsignedChar(c);
    var p, n := 0, size;
    while n >= 8
      invariant p + n == size && target !in s[..p]
    {
      WordTestIsExact(s[p..p + 8], little, target);
      if WordTest(s[p..p + 8], little, target) {
        for i := 0 to 8
          invariant target !in s[..p + i]
        {
          if s[p + i] == target {
            assert s[..][..p + i] == s[..p + i];
            return Some(p + i);
          }
          assert s[..p + i + 1] == s[..p + i] + [s[p + i]];
        }
      }
      assert s[..p + 8] == s[..p] + s[p..p + 8];
      p := p + 8;
      n := n - 8;
    }
    while n > 0
      invariant p + n == size && target !in s[..p]
    {
      if s[p] == target {
        assert s[..][..p] == s[..p];
        return Some(p);
      }
      assert s[..p + 1] == s[..p] + [s[p]];
      p := p + 1;
      n := n - 1;
    }
    assert s[..][..size] == s[..p];
    return None;
  }

  // proven_sys_mem_rchr: the same from the end.
  method MemRchr(s: array?<Byte>, c: int, size: nat, little: bool) returns (r: Option<nat>)
    requires s != null ==> size <= s.Length
    ensures s == null ==> r == None
    ensures s != null ==> IsLast(s[..], size, UnsignedChar(c), r)
  {
    hide WordTest, UnsignedChar;
    if s == null || size == 0 {
      return None;
    }
    var target := UnsignedChar(c);
    var n := size;
    while n >= 8
      invariant 0 <= n <= size && target !in s[n..size]
    {
      var p := n - 8;
      WordTestIsExact(s[p..p + 8], little, target);
      if WordTest(s[p..p + 8], little, target) {
        var i := 8;
        while i > 0
          invariant 0 <= i <= 8 && target !in s[p + i..size]
        {
          i := i - 1;
          if s[p + i] == target {
            assert s[..][p + i + 1..size] == s[p + i + 1..size];
            return Some(p + i);
          }
          assert s[p + i..size] == [s[p + i]] + s[p + i + 1..size];
        }
      }
      assert s[p..size] == s[p..p + 8] + s[n..size];
      n := n - 8;
    }
    while n > 0
      invariant 0 <= n <= size && target !in s[n..size]
    {
      n := n - 1;
      if s[n] == target {
        assert s[..][n + 1..size] == s[n + 1..size];
        return Some(n);
      }
      assert s[n..size] == [s[n]] + s[n + 1..size];
    }
    assert s[..][..size] == s[0..size];
    return None;
  }

  // The memory after size bytes at src are copied to dst, the two ranges overlapping or not.
  function Moved(mem: seq<Byte>, dst: nat, src: nat, size: nat): (r: seq<Byte>)
    requires dst + size <= |mem| && src + size <= |mem|
  {
    mem[..dst] + mem[src..src + size] + mem[dst + size..]
  }

  // With the bytes from..to of the range moved.
  ghost predicate PartMoved(now: seq<Byte>, before: seq<Byte>, d: nat, s: nat, from: nat, to: nat)
    requires from <= to && d + to <= |before| && s + to <= |before|
  {
    now == before[..d + from] + before[s + from..s + to] + before[d + to..]
  }

  lemma UpStep(now: seq<Byte>, before: seq<Byte>, d: nat, s: nat, i: nat)
    requires d < s && s + i < |before| && PartMoved(now, before, d, s, 0, i)
    ensures |now| == |before| && PartMoved(now[d + i := now[s + i]], before, d, s, 0, i + 1)
  {
    assert now[s + i] == before[s + i];
  }

  lemma DownStep(now: seq<Byte>, before: seq<Byte>, d: nat, s: nat, i: nat, size: nat)
    requires s <= d && i < size && d + size <= |before| && PartMoved(now, before, d, s, i + 1, size)
    ensures |now| == |before| && PartMoved(now[d + i := now[s + i]], before, d, s, i, size)
  {
    assert now[s + i] == before[s + i];
  }

  // Ascending, for a destination before the source.
  method MoveUp(mem: array<Byte>, d: nat, s: nat, size: nat)
    requires d < s && s + size <= mem.Length
    modifies mem
    ensures mem[..] == Moved(old(mem[..]), d, s, size)
  {
    hide PartMoved;
    ghost var before := mem[..];
    NothingMoved(before, d, s, 0);
    for i := 0 to size
      invariant PartMoved(mem[..], before, d, s, 0, i)
    {
      ghost var now := mem[..];
      UpStep(now, before, d, s, i);
      mem[d + i] := mem[s + i];
      assert mem[..] == now[d + i := now[s + i]];
    }
    AllMoved(mem[..], before, d, s, size);
  }

  // Descending otherwise.
  method MoveDown(mem: array<Byte>, d: nat, s: nat, size: nat)
    requires s <= d && d + size <= mem.Length
    modifies mem
    ensures mem[..] == Moved(old(mem[..]), d, s, size)
  {
    hide PartMoved;
    ghost var before := mem[..];
    NothingMoved(before, d, s, size);
    var i := size;
    while i > 0
      invariant 0 <= i <= size && PartMoved(mem[..], before, d, s, i, size)
    {
      i := i - 1;
      ghost var now := mem[..];
      DownStep(now, before, d, s, i, size);
      mem[d + i] := mem[s + i];
      assert mem[..] == now[d + i := now[s + i]];
    }
    AllMoved(mem[..], before, d, s, size);
  }

  lemma NothingMoved(before: seq<Byte>, d: nat, s: nat, i: nat)
    requires d + i <= |before| && s + i <= |before|
    ensures PartMoved(before, before, d, s, i, i)
  {
  }

  lemma AllMoved(now: seq<Byte>, before: seq<Byte>, d: nat, s: nat, size: nat)
    requires d + size <= |before| && s + size <= |before| && PartMoved(now, before, d, s, 0, size)
    ensures now == Moved(before, d, s, size)
  {
  }

  // proven_sys_mem_move within one object; a null pointer is None.
  method MemMove(mem: array<Byte>, dst: Option<nat>, src: Option<nat>, size: nat)
    requires dst.Some? ==> dst.value + size <= mem.Length
    requires src.Some? ==> src.value + size <= mem.Length
    modifies mem
    ensures mem[..] == if dst.Some? && src.Some? then Moved(old(mem[..]), dst.value, src.value, size)
                       else old(mem[..])
  {
    if size > 0 && dst.Some? && src.Some? && dst != src {
      if dst.value < src.value {
        MoveUp(mem, dst.value, src.value, size);
      } else {
        MoveDown(mem, dst.value, src.value, size);
      }
    } else if dst.Some? && src.Some? {
      assert mem[..] == Moved(mem[..], dst.value, src.value, size);
    }
  }

  // Every byte of the target is the one the source had at its place, and every other byte keeps its value.
  lemma MovedAt(mem: seq<Byte>, dst: nat, src: nat, size: nat)
    requires dst + size <= |mem| && src + size <= |mem|
    ensures var r := Moved(mem, dst, src, size);
            && |r| == |mem|
            && forall i :: 0 <= i < |r| ==> r[i] == if dst <= i < dst + size then mem[src + (i - dst)] else mem[i]
  {
  }
}
