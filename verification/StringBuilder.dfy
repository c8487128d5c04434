// The growing character buffer of nob.h: a capacity that doubles from 256.
module StringBuilder {
  import opened Powers

  const INITIAL_CAPACITY: nat := 256

  class Builder {
    var items: array<char>
    var count: nat

    ghost predicate Valid()
      reads this
    {
      count <= items.Length
    }

    ghost function Contents(): string
      reads this, items
      requires Valid()
    {
      items[..count]
    }

    constructor ()
      ensures Valid() && Contents() == "" && fresh(items)
    {
      items := new char[0];
      count := 0;
    }

    // nob_da_reserve
    method Reserve(expected: nat)
      requires Valid()
      modifies this
      ensures Valid() && expected <= items.Length
      ensures Contents() == old(Contents()) && count == old(count)
      ensures items == old(items) || fresh(items)
    {
      if expected > items.Length {
        var capacity := if items.Length == 0 then INITIAL_CAPACITY else items.Length;
        while expected > capacity
          invariant capacity >= items.Length && capacity > 0
          decreases expected - capacity
        {
          capacity := capacity * 2;
        }
        var grown := new char[capacity](_ => ' ');
        var n := count;
        for i := 0 to n
          invariant forall k :: 0 <= k < i ==> grown[k] == items[k]
          modifies grown
        {
          grown[i] := items[i];
        }
        items := grown;
      }
    }

    // nob_da_append
    method Append(c: char)
      requires Valid()
      modifies this, items
      ensures Valid() && Contents() == old(Contents()) + [c]
      ensures items == old(items) || fresh(items)
    {
      Reserve(count + 1);
      items[count] := c;
      count := count + 1;
    }

    // nob_da_append_many
    method AppendMany(s: string)
      requires Valid()
      modifies this, items
      ensures Valid() && Contents() == old(Contents()) + s
      ensures items == old(items) || fresh(items)
    {
      Reserve(count + |s|);
      ghost var before := Contents();
      for i := 0 to |s|
        invariant Valid() && count == |before| && count + |s| <= items.Length
        invariant items == old(items) || fresh(items)
        invariant items[..count + i] == before + s[..i]
      {
        ghost var done := items[..count + i];
        items[count + i] := s[i];
        assert items[..count + i] == done;
        assert items[..count + i + 1] == done + [s[i]];
      }
      count := count + |s|;
      assert s[..|s|] == s;
    }
  }

  // ----- the doubling in 64 bits -----

  function Doubled(capacity: nat, n: nat): nat {
    if n == 0 then capacity else Doubled(capacity, n - 1) * 2 % TWO_64
  }

  lemma {:induction false} DoubledIs(i: nat, n: nat)
    requires i < 64
    ensures Doubled(Pow2(i), n) == if i + n < 64 then Pow2(i + n) else 0
  {
    hide Pow2;
    if n > 0 {
      DoubledIs(i, n - 1);
      Pow2At64();
      if i + n <= 64 {
        TwiceMore(i + n - 1);
        Pow2Monotonic(i + n, 64);
        if i + n < 64 { Below64(i + n); }
      }
    }
  }

  lemma TwiceMore(n: nat)
    ensures Pow2(n + 1) == 2 * Pow2(n)
  {
  }

  lemma Pow2At64()
    ensures Pow2(64) == TWO_64 && Pow2(63) < TWO_64
  {
    Pow2Values();
    TwiceMore(63);
  }

  lemma Below64(n: nat)
    requires n < 64
    ensures Pow2(n) < TWO_64
  {
    hide Pow2;
    Pow2At64();
    Pow2Monotonic(n, 63);
  }

  // From a power of two, as every capacity is, it reaches what is asked for if and only if that is at
  // most 2^63; beyond, the capacity wraps to zero and stays there.
  lemma DoublingReaches(i: nat, expected: nat)
    requires i < 64 && expected < TWO_64
    ensures (exists n :: Doubled(Pow2(i), n) >= expected) <==> expected <= Pow2(63)
  {
    hide Pow2;
    DoubledIs(i, 63 - i);
    forall n: nat
      ensures Doubled(Pow2(i), n) <= Pow2(63)
    {
      DoubledIs(i, n);
      if i + n < 64 { Pow2Monotonic(i + n, 63); }
    }
    if expected <= Pow2(63) {
      assert Doubled(Pow2(i), 63 - i) >= expected;
    }
  }
}
