// The file a hash is recorded in: its decimal digits and a line's end, and what is read back of it
// when only the first characters were written.
module HashFile {
  import opened Powers
  import opened Bytes

  function Digit(n: nat): char
    requires n < 10
  {
    '0' + n as char
  }

  predicate IsDigit(c: char) { '0' <= c <= '9' }

  function Worth(c: char): nat
    requires IsDigit(c)
  {
    (c - '0') as nat
  }

  // "%u"
  function Digits(n: nat): (s: string)
    ensures s != "" && forall i :: 0 <= i < |s| ==> IsDigit(s[i])
  {
    if n < 10 then [Digit(n)] else Digits(n / 10) + [Digit(n % 10)]
  }

  // write_cmdhash
  function HashText(h: nat): string { Digits(h) + "\n" }

  // strtoul, after digits worth n.
  function NumberAfter(n: nat, s: string): nat
    decreases |s|
  {
    if s == "" || !IsDigit(s[0]) then n else NumberAfter(10 * n + Worth(s[0]), s[1..])
  }

  // read_cmdhash: no line, no hash.
  function ReadHash(text: string): Option<nat> {
    if text == "" then None else Some(NumberAfter(0, text) % TWO_32)
  }

  lemma {:induction false} NumberAppend(n: nat, s: string, rest: string)
    requires forall i :: 0 <= i < |s| ==> IsDigit(s[i])
    ensures NumberAfter(n, s + rest) == NumberAfter(NumberAfter(n, s), rest)
    decreases |s|
  {
    if s == "" {
      assert s + rest == rest;
    } else {
      assert (s + rest)[0] == s[0] && (s + rest)[1..] == s[1..] + rest;
      NumberAppend(10 * n + Worth(s[0]), s[1..], rest);
    }
  }

  lemma {:induction false} NumberOfDigits(n: nat)
    ensures NumberAfter(0, Digits(n)) == n
  {
    if n >= 10 {
      NumberOfDigits(n / 10);
      NumberAppend(0, Digits(n / 10), [Digit(n % 10)]);
      OneDigit(n / 10, n % 10);
    } else {
      OneDigit(0, n);
    }
  }

  lemma OneDigit(n: nat, d: nat)
    requires d < 10
    ensures NumberAfter(n, [Digit(d)]) == 10 * n + d
  {
    assert [Digit(d)][1..] == "";
  }

  // The first digits of a number are those of its quotient.
  lemma {:induction false} FirstDigits(n: nat, k: nat)
    requires k < |Digits(n)|
    ensures Digits(n)[..|Digits(n)| - k] == Digits(n / Pow(10, k))
    ensures k > 0 ==> n / Pow(10, k) < n
    decreases k
  {
    hide Digit;
    if k == 0 {
      assert n / Pow(10, 0) == n by { Quotient(n, 1, n, 0); }
      assert Digits(n)[..|Digits(n)|] == Digits(n);
    } else {
      var m := n / 10;
      FirstDigits(m, k - 1);
      DivideTwice(10, n, k - 1);
      var s := Digits(m);
      assert (s + [Digit(n % 10)])[..|s| - (k - 1)] == s[..|s| - (k - 1)];
    }
  }

  lemma {:induction false} CutTextRead(h: nat, count: nat)
    requires h < TWO_32 && count <= |HashText(h)|
    ensures var n := |Digits(h)|;
            ReadHash(HashText(h)[..count]) ==
            if count == 0 then None else if count >= n then Some(h) else Some(h / Pow(10, n - count))
    ensures 0 < count < |Digits(h)| ==> h / Pow(10, |Digits(h)| - count) < h
  {
    hide Digits, HashText, ReadHash;
    if count == 0 {
      assert ReadHash("") == None by { NoLine(); }
    } else if count < |Digits(h)| {
      FewDigits(h, |Digits(h)| - count);
    } else {
      AllDigits(h, count);
    }
  }

  lemma NoLine()
    ensures ReadHash("") == None
  {
  }

  lemma FewDigits(h: nat, k: nat)
    requires h < TWO_32 && 0 < k < |Digits(h)|
    ensures |HashText(h)| == |Digits(h)| + 1
    ensures ReadHash(HashText(h)[..|Digits(h)| - k]) == Some(h / Pow(10, k)) && h / Pow(10, k) < h
  {
    hide Digits, Pow, IsDigit;
    var s, q := Digits(h), h / Pow(10, k);
    assert HashText(h)[..|s| - k] == s[..|s| - k];
    FirstDigits(h, k);
    NumberOfDigits(q);
    Quotient(q, TWO_32, 0, q);
  }

  lemma AllDigits(h: nat, count: nat)
    requires h < TWO_32 && |Digits(h)| <= count <= |HashText(h)|
    ensures ReadHash(HashText(h)[..count]) == Some(h)
  {
    hide Digits, IsDigit;
    var s, text := Digits(h), HashText(h)[..count];
    var rest := text[|s|..];
    assert text == s + rest;
    NumberAppend(0, s, rest);
    NumberOfDigits(h);
    LineEnd(h, rest);
    Quotient(h, TWO_32, 0, h);
  }

  lemma LineEnd(n: nat, rest: string)
    requires rest == "" || rest == "\n"
    ensures NumberAfter(n, rest) == n
  {
  }

  // The whole file gives the hash back.
  lemma ReadUndoesWrite(h: nat)
    requires h < TWO_32
    ensures ReadHash(HashText(h)) == Some(h)
  {
    hide Digits;
    CutTextRead(h, |HashText(h)|);
    assert HashText(h)[..|HashText(h)|] == HashText(h);
  }

  // Digit k from the right.
  lemma {:induction false} DigitAt(n: nat, k: nat)
    requires k < |Digits(n)|
    ensures Digits(n)[|Digits(n)| - 1 - k] == "0123456789"[n / Pow(10, k) % 10]
  {
    hide Digit, Pow;
    if k == 0 {
      assert n / Pow(10, 0) == n by { NoTens(n); }
      DigitIs(n % 10);
      Quotient(n % 10, 10, 0, n % 10);
    } else {
      DigitAt(n / 10, k - 1);
      DivideTwice(10, n, k - 1);
    }
  }

  lemma NoTens(n: nat)
    ensures n / Pow(10, 0) == n
  {
    Quotient(n, 1, n, 0);
  }

  lemma DigitIs(n: nat)
    requires n < 10
    ensures Digit(n) == "0123456789"[n]
  {
  }
}
