// The state an output was built from, as the build driver hashes it: the exact command and the
// contents of every file the dependency file names, folded byte by byte into 32 bits.
module StateHash {
  import opened Powers

  type Path = string
  type Files = map<Path, string>

  // Names and file contents are hashed as unsigned characters, the command as signed ones.
  function Values(s: string): (v: seq<int>)
    ensures |v| == |s|
  {
    seq(|s|, i requires 0 <= i < |s| => s[i] as int)
  }

  function Signed(c: char): int { if (c as int) < 128 then c as int else c as int - 256 }

  function SignedValues(s: string): (v: seq<int>)
    ensures |v| == |s|
  {
    seq(|s|, i requires 0 <= i < |s| => Signed(s[i]))
  }

  // One step of the hash, in 32 bits.
  function Mix(h: nat, c: int): (r: nat)
    ensures r < TWO_32
  {
    (h * 32 + h + c) % TWO_32
  }

  function Fold(h: nat, s: seq<int>): nat
    decreases |s|
  {
    if s == [] then h else Fold(Mix(h, s[0]), s[1..])
  }

  lemma {:induction false} FoldAppend(h: nat, s: seq<int>, t: seq<int>)
    ensures Fold(h, s + t) == Fold(Fold(h, s), t)
    decreases |s|
  {
    hide Mix;
    if s == [] {
      assert s + t == t;
    } else {
      assert (s + t)[0] == s[0] && (s + t)[1..] == s[1..] + t;
      FoldAppend(Mix(h, s[0]), s[1..], t);
    }
  }

  // ----- what the hash computes -----

  // The bytes as digits in base 33, the first one the highest.
  function Base33(s: seq<int>): int
    decreases |s|
  {
    if s == [] then 0 else s[0] * Pow(33, |s| - 1) + Base33(s[1..])
  }

  // h * 33^n and the digits, modulo 2^32.
  lemma {:induction false} FoldIs(h: nat, s: seq<int>)
    requires h < TWO_32
    ensures Fold(h, s) == (h * Pow(33, |s|) + Base33(s)) % TWO_32
    decreases |s|
  {
    hide Pow, Mix;
    if s == [] {
      NoPower(h);
    } else {
      var rest, p := s[1..], Pow(33, |s| - 1);
      var g := Mix(h, s[0]);
      FoldIs(g, rest);
      PowNext(33, |s| - 1);
      MixIs(h, s[0]);
      var q := (33 * h + s[0]) / TWO_32;
      OneDigit(h, s[0], g, q, p, Base33(rest));
      SameRemainder(g * p + Base33(rest), h * (33 * p) + (s[0] * p + Base33(rest)), q * p);
    }
  }

  lemma NoPower(h: nat)
    requires h < TWO_32
    ensures h == (h * Pow(33, 0) + 0) % TWO_32
  {
  }

  lemma MixIs(h: nat, c: int)
    ensures 33 * h + c == TWO_32 * ((33 * h + c) / TWO_32) + Mix(h, c)
  {
  }

  lemma OneDigit(h: int, c: int, g: int, q: int, p: int, b: int)
    requires 33 * h + c == TWO_32 * q + g
    ensures h * (33 * p) + (c * p + b) == g * p + b + TWO_32 * (q * p)
  {
    Reassociate(TWO_32, q, p);
    assert (33 * h + c) * p == (TWO_32 * q) * p + g * p;
    assert (33 * h + c) * p == h * (33 * p) + c * p;
  }

  lemma SameRemainder(a: int, b: int, q: int)
    requires b == a + TWO_32 * q
    ensures a % TWO_32 == b % TWO_32
  {
    Quotient(b, TWO_32, a / TWO_32 + q, a % TWO_32);
  }

  // ----- what it never confuses: 33 is odd, so no step loses anything -----

  const INVERSE_33: int := 0x3e0f83e1

  lemma OddFactor(d: int)
    requires d < TWO_32 && -d < TWO_32 && 33 * d % TWO_32 == 0
    ensures d == 0
  {
    var k := 33 * d / TWO_32;
    assert 33 * d == TWO_32 * k;
    assert INVERSE_33 * 33 == 1 + 8 * TWO_32;
    assert d == TWO_32 * (INVERSE_33 * k - 8 * d);
  }

  lemma {:induction false} FoldInjective(g: nat, h: nat, s: seq<int>)
    requires g < TWO_32 && h < TWO_32 && Fold(g, s) == Fold(h, s)
    ensures g == h
    decreases |s|
  {
    hide Mix;
    if s != [] {
      FoldInjective(Mix(g, s[0]), Mix(h, s[0]), s[1..]);
      MixInjective(g, h, s[0]);
    }
  }

  lemma MixInjective(g: nat, h: nat, c: int)
    requires g < TWO_32 && h < TWO_32 && Mix(g, c) == Mix(h, c)
    ensures g == h
  {
    MixIs(g, c);
    MixIs(h, c);
    var q := (33 * g + c) / TWO_32 - (33 * h + c) / TWO_32;
    Quotient(33 * (g - h), TWO_32, q, 0);
    OddFactor(g - h);
  }

  // Two streams that differ in one byte have different hashes.
  lemma OneByteIsSeen(h: nat, u: seq<int>, a: int, b: int, v: seq<int>)
    requires h < TWO_32 && a != b && -256 < a - b < 256
    ensures Fold(h, u + [a] + v) != Fold(h, u + [b] + v)
  {
    hide Mix;
    var g := Fold(h, u);
    FoldBound(h, u);
    FoldAround(h, u, [a], v);
    FoldAround(h, u, [b], v);
    FoldOne(g, a);
    FoldOne(g, b);
    if Fold(h, u + [a] + v) == Fold(h, u + [b] + v) {
      FoldInjective(Mix(g, a), Mix(g, b), v);
      MixSeesByte(g, a, b);
    }
  }

  // So have two streams in which neighbours that differ have changed places.
  lemma ExchangeIsSeen(h: nat, u: seq<int>, a: int, b: int, v: seq<int>)
    requires h < TWO_32 && a != b && -256 < a - b < 256
    ensures Fold(h, u + [a, b] + v) != Fold(h, u + [b, a] + v)
  {
    hide Mix;
    var g := Fold(h, u);
    FoldBound(h, u);
    FoldAround(h, u, [a, b], v);
    FoldAround(h, u, [b, a], v);
    FoldTwo(g, a, b);
    FoldTwo(g, b, a);
    if Fold(h, u + [a, b] + v) == Fold(h, u + [b, a] + v) {
      FoldInjective(Mix(Mix(g, a), b), Mix(Mix(g, b), a), v);
      MixSeesOrder(g, a, b);
    }
  }

  lemma {:induction false} FoldBound(h: nat, s: seq<int>)
    requires h < TWO_32
    ensures Fold(h, s) < TWO_32
    decreases |s|
  {
    hide Mix;
    if s != [] { FoldBound(Mix(h, s[0]), s[1..]); }
  }

  lemma FoldAround(h: nat, u: seq<int>, m: seq<int>, v: seq<int>)
    ensures Fold(h, u + m + v) == Fold(Fold(Fold(h, u), m), v)
  {
    hide Mix, Fold;
    FoldAppend(h, u + m, v);
    FoldAppend(h, u, m);
  }

  lemma FoldOne(g: nat, a: int)
    ensures Fold(g, [a]) == Mix(g, a)
  {
    hide Mix;
    assert [a][1..] == [];
  }

  lemma FoldTwo(g: nat, a: int, b: int)
    ensures Fold(g, [a, b]) == Mix(Mix(g, a), b)
  {
    hide Mix;
    assert [a, b][1..] == [b];
    FoldOne(Mix(g, a), b);
  }

  lemma MixSeesByte(g: nat, a: int, b: int)
    requires -256 < a - b < 256 && Mix(g, a) == Mix(g, b)
    ensures a == b
  {
    MixIs(g, a);
    MixIs(g, b);
  }

  lemma MixSeesOrder(g: nat, a: int, b: int)
    requires -256 < a - b < 256 && Mix(Mix(g, a), b) == Mix(Mix(g, b), a)
    ensures a == b
  {
    hide Mix;
    var x, y, z := Mix(g, a), Mix(g, b), Mix(Mix(g, a), b);
    MixIs(g, a);
    MixIs(g, b);
    MixIs(x, b);
    MixIs(y, a);
    var p, q, r, t := (33 * g + a) / TWO_32, (33 * g + b) / TWO_32, (33 * x + b) / TWO_32, (33 * y + a) / TWO_32;
    FewUnits(a - b, 33 * p + r - 33 * q - t);
  }

  lemma FewUnits(d: int, k: int)
    requires -256 < d < 256 && 32 * d == TWO_32 * k
    ensures d == 0
  {
  }

  // hash_bytes
  method HashBytes(h: nat, data: seq<int>) returns (r: nat)
    ensures r == Fold(h, data)
  {
    hide Mix;
    r := h;
    for i := 0 to |data|
      invariant Fold(r, data[i..]) == Fold(h, data)
    {
      assert data[i..][0] == data[i] && data[i..][1..] == data[i + 1..];
      r := Mix(r, data[i]);
    }
  }

  // ----- what is hashed -----

  function CmdText(cmd: seq<string>): string {
    if cmd == [] then "" else cmd[0] + "\n" + CmdText(cmd[1..])
  }

  predicate Present(paths: seq<Path>, files: Files) { forall i :: 0 <= i < |paths| ==> paths[i] in files }

  function Stream(paths: seq<Path>, files: Files): seq<int>
    requires Present(paths, files)
  {
    if paths == [] then []
    else Values(paths[0]) + [0] + Values(files[paths[0]]) + Stream(paths[1..], files)
  }

  // A 32-bit number as its four bytes in memory.
  function Word(h: nat): (w: seq<int>)
    ensures |w| == 4
  {
    [h % 256, h / 0x100 % 256, h / 0x1_0000 % 256, h / 0x100_0000 % 256]
  }

  // hash_file_contents over a list of files
  method HashFiles(h: nat, paths: seq<Path>, files: Files) returns (r: nat)
    requires Present(paths, files)
    ensures r == Fold(h, Stream(paths, files))
  {
    hide Fold, Values;
    r := h;
    for i := 0 to |paths|
      invariant Fold(r, Stream(paths[i..], files)) == Fold(h, Stream(paths, files))
    {
      var p := paths[i];
      ghost var rest := Stream(paths[i + 1..], files);
      assert paths[i..][1..] == paths[i + 1..];
      ghost var was := r;
      r := HashBytes(r, Values(p) + [0]);
      ghost var named := r;
      r := HashBytes(r, Values(files[p]));
      FoldAppend(was, Values(p) + [0], Values(files[p]));
      FoldAppend(was, Values(p) + [0] + Values(files[p]), rest);
    }
    FoldNone(r);
  }

  lemma FoldNone(h: nat)
    ensures Fold(h, []) == h
  {
  }

  // ----- what the stream determines -----

  // Each argument ends its line, each name ends in a zero byte, and a number has its lowest byte first.
  lemma StreamExamples()
    ensures CmdText(["cc", "-c"]) == "cc\n-c\n" && Word(0x0102_0304) == [4, 3, 2, 1]
    ensures SignedValues("a\U{e9}") == [97, -23]
    ensures var files := map["a" := "xy", "b" := "z"]; Stream(["b", "a"], files) == [98, 0, 122, 97, 0, 120, 121]
  {
    var files := map["a" := "xy", "b" := "z"];
    assert ["cc", "-c"][1..] == ["-c"] && ["-c"][1..] == [];
    assert CmdText(["-c"]) == "-c\n";
    assert ["b", "a"][1..] == ["a"] && ["a"][1..] == [];
    assert Stream(["a"], files) == [97, 0, 120, 121];
  }

  lemma FoldExample()
    ensures Fold(5381, [49, 50]) == 5861576 && Fold(5381, [50, 49]) != 5861576
  {
    assert [49, 50][1..] == [50] && [50][1..] == [] && [50, 49][1..] == [49] && [49][1..] == [];
  }

  predicate IsText(s: string) { '\0' !in s }

  // Where a file's bytes can be told from the next name: no zero byte, or the same size as before.
  predicate Framed(paths: seq<Path>, f: Files, g: Files)
    requires Present(paths, f) && Present(paths, g)
  {
    forall i :: 0 <= i < |paths| - 1 ==>
      || (IsText(f[paths[i]]) && IsText(g[paths[i]]))
      || |f[paths[i]]| == |g[paths[i]]|
  }

  predicate Agree(paths: seq<Path>, f: Files, g: Files)
    requires Present(paths, f) && Present(paths, g)
  {
    forall i :: 0 <= i < |paths| ==> f[paths[i]] == g[paths[i]]
  }

  lemma ValuesInjective(s: string, t: string)
    requires Values(s) == Values(t)
    ensures s == t
  {
    assert forall i :: 0 <= i < |s| ==> s[i] as int == Values(s)[i] == Values(t)[i] == t[i] as int;
  }

  lemma SignedValuesInjective(s: string, t: string)
    requires SignedValues(s) == SignedValues(t)
    requires forall i :: 0 <= i < |s| ==> s[i] as int < 256
    requires forall i :: 0 <= i < |t| ==> t[i] as int < 256
    ensures s == t
  {
    assert forall i :: 0 <= i < |s| ==> Signed(s[i]) == SignedValues(s)[i] == SignedValues(t)[i] == Signed(t[i]);
  }

  // The first mark divides two equal sequences alike.
  lemma FirstMark<T>(mark: T, a: seq<T>, x: seq<T>, b: seq<T>, y: seq<T>)
    requires a + [mark] + x == b + [mark] + y && mark !in a && mark !in b
    ensures a == b && x == y
  {
    var s := a + [mark] + x;
    assert s[|a|] == mark && s[|b|] == mark;
    assert forall k :: 0 <= k < |a| ==> s[k] == a[k];
    assert forall k :: 0 <= k < |b| ==> s[k] == b[k];
    assert a == s[..|a|] && b == s[..|b|] && x == s[|a| + 1..] && y == s[|b| + 1..];
  }

  lemma SamePrefix(a: seq<int>, x: seq<int>, y: seq<int>)
    requires a + x == a + y
    ensures x == y
  {
    assert x == (a + x)[|a|..] && y == (a + y)[|a|..];
  }

  lemma SameLength(a: seq<int>, x: seq<int>, b: seq<int>, y: seq<int>)
    requires a + x == b + y && |a| == |b|
    ensures a == b && x == y
  {
    assert a == (a + x)[..|a|] && b == (b + y)[..|a|];
    SamePrefix(a, x, y);
  }

  lemma NoZero(s: string)
    requires IsText(s)
    ensures 0 !in Values(s)
  {
    assert forall i :: 0 <= i < |s| ==> Values(s)[i] == s[i] as int && s[i] != '\0';
  }

  // Equal streams of the same files, framed, are of the same contents.
  lemma {:induction false} StreamDetermines(paths: seq<Path>, f: Files, g: Files, x: seq<int>, y: seq<int>)
    requires Present(paths, f) && Present(paths, g) && Framed(paths, f, g) && |x| == |y|
    requires forall i :: 0 <= i < |paths| ==> IsText(paths[i])
    requires Stream(paths, f) + x == Stream(paths, g) + y
    ensures Agree(paths, f, g) && x == y
    decreases |paths|
  {
    hide Values, IsText;
    if paths == [] {
      SamePrefix([], x, y);
    } else {
      var p, rest := paths[0], paths[1..];
      var head, a, b := Values(p) + [0], Values(f[p]), Values(g[p]);
      var u, v := Stream(rest, f) + x, Stream(rest, g) + y;
      assert Stream(paths, f) + x == head + (a + u) && Stream(paths, g) + y == head + (b + v);
      SamePrefix(head, a + u, b + v);
      assert Framed(rest, f, g) by {
        assert forall i :: 0 <= i < |rest| ==> rest[i] == paths[i + 1];
      }
      FirstFile(paths, f, g, x, y, a, b);
      SameLength(a, u, b, v);
      ValuesInjective(f[p], g[p]);
      StreamDetermines(rest, f, g, x, y);
      assert forall i :: 0 < i < |paths| ==> paths[i] == rest[i - 1];
    }
  }

  // The stream and what follows it, after the first name and its mark.
  function AfterName(paths: seq<Path>, f: Files, x: seq<int>): seq<int>
    requires paths != [] && Present(paths, f)
  {
    Values(f[paths[0]]) + Stream(paths[1..], f) + x
  }

  lemma FirstName(paths: seq<Path>, f: Files, a: seq<int>, x: seq<int>)
    requires paths != [] && Present(paths, f)
    ensures a + (Stream(paths, f) + x) == (a + Values(paths[0])) + [0] + AfterName(paths, f, x)
  {
    hide Values;
    MarkOutside(a, Values(paths[0]), Values(f[paths[0]]), Stream(paths[1..], f), x);
  }

  lemma MarkOutside(a: seq<int>, name: seq<int>, content: seq<int>, rest: seq<int>, x: seq<int>)
    ensures a + (name + [0] + content + rest + x) == (a + name) + [0] + (content + rest + x)
  {
  }

  // The first file has the same length in both.
  lemma FirstFile(paths: seq<Path>, f: Files, g: Files, x: seq<int>, y: seq<int>, a: seq<int>, b: seq<int>)
    requires paths != [] && Present(paths, f) && Present(paths, g) && Framed(paths, f, g) && |x| == |y|
    requires forall i :: 0 <= i < |paths| ==> IsText(paths[i])
    requires a == Values(f[paths[0]]) && b == Values(g[paths[0]])
    requires a + (Stream(paths[1..], f) + x) == b + (Stream(paths[1..], g) + y)
    ensures |a| == |b|
  {
    hide Values, IsText;
    var rest := paths[1..];
    if rest == [] {
      assert |a + ([] + x)| == |b + ([] + y)|;
    } else if IsText(f[paths[0]]) && IsText(g[paths[0]]) {
      assert rest[0] == paths[1];
      NoZero(rest[0]);
      NoZero(f[paths[0]]);
      NoZero(g[paths[0]]);
      FirstName(rest, f, a, x);
      FirstName(rest, g, b, y);
      var q := Values(rest[0]);
      FirstMark(0, a + q, AfterName(rest, f, x), b + q, AfterName(rest, g, y));
    } else {
      assert Framed(paths, f, g);
    }
  }

  ghost predicate Determines(paths: seq<Path>) {
    forall f, g :: Present(paths, f) && Present(paths, g) && Stream(paths, f) == Stream(paths, g) ==> Agree(paths, f, g)
  }

  // With two files or more, contents that hold a name and a zero byte can be moved from one to
  // the next without changing the stream: it determines all contents exactly for a single file.
  lemma StreamAmbiguous(paths: seq<Path>)
    requires forall i, j :: 0 <= i < j < |paths| ==> paths[i] != paths[j]
    ensures Determines(paths) <==> |paths| <= 1
  {
    hide Agree, Stream;
    if |paths| <= 1 {
      forall f, g | Present(paths, f) && Present(paths, g) && Stream(paths, f) == Stream(paths, g)
        ensures Agree(paths, f, g)
      {
        OneFile(paths, f, g);
      }
    } else {
      var f, g := Swapped(paths);
    }
  }

  lemma OneFile(paths: seq<Path>, f: Files, g: Files)
    requires |paths| <= 1 && Present(paths, f) && Present(paths, g) && Stream(paths, f) == Stream(paths, g)
    ensures Agree(paths, f, g)
  {
    hide Values;
    if paths != [] {
      var p := paths[0];
      var a, b := Values(p) + [0] + Values(f[p]), Values(p) + [0] + Values(g[p]);
      assert Stream(paths, f) == a + [] == a && Stream(paths, g) == b + [] == b;
      SamePrefix(Values(p) + [0], Values(f[p]), Values(g[p]));
      ValuesInjective(f[p], g[p]);
    }
  }

  // Every file empty but one.
  function OnlyAt(paths: seq<Path>, at: Path, content: string): Files {
    map r | r in paths :: if r == at then content else ""
  }

  lemma Swapped(paths: seq<Path>) returns (f: Files, g: Files)
    requires |paths| > 1 && forall i, j :: 0 <= i < j < |paths| ==> paths[i] != paths[j]
    ensures Present(paths, f) && Present(paths, g) && Stream(paths, f) == Stream(paths, g) && !Agree(paths, f, g)
  {
    var p, q, rest := paths[0], paths[1], paths[2..];
    var moved := q + "\0";
    f, g := OnlyAt(paths, q, moved), OnlyAt(paths, p, moved);
    assert f[p] == "" && f[q] == moved && g[p] == moved && g[q] == "";
    assert forall i :: 0 <= i < |rest| ==> rest[i] == paths[i + 2] && f[rest[i]] == g[rest[i]];
    SameStream(rest, f, g);
    MovedValues(q, moved);
    hide Stream, Values, OnlyAt;
    TwoFiles(paths, f);
    TwoFiles(paths, g);
    Regrouped(Values(p) + [0], Values(moved), Stream(rest, f));
  }

  lemma Regrouped(z: seq<int>, m: seq<int>, s: seq<int>)
    ensures z + [] + m + m + s == z + m + m + [] + s
  {
    assert z + [] == z && z + m + m + [] == z + m + m;
  }

  lemma MovedValues(q: string, moved: string)
    requires moved == q + "\0"
    ensures Values(moved) == Values(q) + [0] && Values("") == []
  {
  }

  lemma TwoFiles(paths: seq<Path>, f: Files)
    requires |paths| > 1 && Present(paths, f)
    ensures Present(paths[2..], f)
    ensures Stream(paths, f) ==
            Values(paths[0]) + [0] + Values(f[paths[0]]) + (Values(paths[1]) + [0]) + Values(f[paths[1]]) + Stream(paths[2..], f)
  {
    var rest := paths[1..];
    assert rest[0] == paths[1] && rest[1..] == paths[2..];
    assert Stream(rest, f) == Values(paths[1]) + [0] + Values(f[paths[1]]) + Stream(paths[2..], f);
  }

  lemma {:induction false} SameStream(paths: seq<Path>, f: Files, g: Files)
    requires Present(paths, f) && Present(paths, g) && Agree(paths, f, g)
    ensures Stream(paths, f) == Stream(paths, g)
    decreases |paths|
  {
    hide Values;
    if paths != [] { SameStream(paths[1..], f, g); }
  }

  // ----- the command -----

  predicate IsArgument(a: string) { '\n' !in a && '\0' !in a && forall i :: 0 <= i < |a| ==> a[i] as int < 256 }

  lemma {:induction false} CmdTextDetermines(cmd: seq<string>, other: seq<string>)
    requires (forall i :: 0 <= i < |cmd| ==> IsArgument(cmd[i])) && (forall i :: 0 <= i < |other| ==> IsArgument(other[i]))
    requires CmdText(cmd) == CmdText(other)
    ensures cmd == other
    decreases |cmd|
  {
    if cmd != [] && other != [] {
      FirstMark('\n', cmd[0], CmdText(cmd[1..]), other[0], CmdText(other[1..]));
      CmdTextDetermines(cmd[1..], other[1..]);
      assert cmd == [cmd[0]] + cmd[1..] && other == [other[0]] + other[1..];
    }
  }

  // The whole stream of an output: command, files, and the objects' hash if it links any.
  function StateStream(cmd: seq<string>, deps: seq<Path>, files: Files, extra: seq<int>): seq<int>
    requires Present(deps, files)
  {
    SignedValues(CmdText(cmd)) + Stream(deps, files) + extra
  }

  // Equal streams of two states with the same framed dependencies are of the same command and contents.
  lemma StateDetermines(cmd: seq<string>, f: Files, x: seq<int>, other: seq<string>, g: Files, y: seq<int>, deps: seq<Path>)
    requires deps != [] && Present(deps, f) && Present(deps, g) && Framed(deps, f, g) && |x| == |y|
    requires forall i :: 0 <= i < |deps| ==> IsText(deps[i])
    requires (forall i :: 0 <= i < |cmd| ==> IsArgument(cmd[i])) && (forall i :: 0 <= i < |other| ==> IsArgument(other[i]))
    requires StateStream(cmd, deps, f, x) == StateStream(other, deps, g, y)
    ensures cmd == other && Agree(deps, f, g) && x == y
  {
    hide CmdText, IsArgument, Values, SignedValues, Signed, Stream;
    var a, b, s, u := SignedValues(CmdText(cmd)), SignedValues(CmdText(other)), Stream(deps, f), Stream(deps, g);
    TextIsNonzero(cmd);
    TextIsNonzero(other);
    SameCommand(a, b, deps, f, x, g, y);
    SignedValuesInjective(CmdText(cmd), CmdText(other));
    CmdTextDetermines(cmd, other);
    assert a + s + x == a + (s + x) && a + u + y == a + (u + y);
    SamePrefix(a, s + x, u + y);
    StreamDetermines(deps, f, g, x, y);
  }

  lemma SameCommand(a: seq<int>, b: seq<int>, deps: seq<Path>, f: Files, x: seq<int>, g: Files, y: seq<int>)
    requires deps != [] && Present(deps, f) && Present(deps, g) && 0 !in a && 0 !in b && IsText(deps[0])
    requires a + Stream(deps, f) + x == b + Stream(deps, g) + y
    ensures a == b
  {
    hide Values, IsText, Stream, AfterName;
    var q, u, v := Values(deps[0]), Stream(deps, f), Stream(deps, g);
    NoZero(deps[0]);
    Associate(a, u, x);
    Associate(b, v, y);
    FirstName(deps, f, a, x);
    FirstName(deps, g, b, y);
    FirstMark(0, a + q, AfterName(deps, f, x), b + q, AfterName(deps, g, y));
    SameLength(a, q, b, q);
  }

  lemma Associate(a: seq<int>, b: seq<int>, c: seq<int>)
    ensures a + b + c == a + (b + c)
  {
  }

  lemma {:induction false} TextIsNonzero(cmd: seq<string>)
    requires forall i :: 0 <= i < |cmd| ==> IsArgument(cmd[i])
    ensures 0 !in SignedValues(CmdText(cmd))
    ensures forall i :: 0 <= i < |CmdText(cmd)| ==> CmdText(cmd)[i] as int < 256
    decreases |cmd|
  {
    if cmd != [] {
      TextIsNonzero(cmd[1..]);
      var t, rest := CmdText(cmd), CmdText(cmd[1..]);
      forall i | 0 <= i < |t| ensures SignedValues(t)[i] != 0 && t[i] as int < 256 {
        if i > |cmd[0]| {
          assert t[i] == rest[i - |cmd[0]| - 1];
          assert SignedValues(rest)[i - |cmd[0]| - 1] == Signed(t[i]);
        }
      }
    }
  }

  // ----- lists of different names -----

  // Whole lines, without zero bytes.
  predicate IsLined(a: seq<int>) { 0 !in a && (a == [] || a[|a| - 1] == 10) }

  // One line without its end.
  predicate IsLine(a: seq<int>) { 0 !in a && 10 !in a }

  // Ordinary source files, under ordinary names.
  predicate AreLined(paths: seq<Path>, files: Files)
    requires Present(paths, files)
  {
    forall i :: 0 <= i < |paths| ==> IsLine(Values(paths[i])) && IsLined(Values(files[paths[i]]))
  }

  lemma LastMark(a: seq<int>, p: seq<int>, b: seq<int>, q: seq<int>)
    requires a + p == b + q && IsLined(a) && IsLined(b) && IsLine(p) && IsLine(q)
    ensures a == b && p == q
  {
    var s := a + p;
    assert forall k :: |a| <= k < |s| ==> s[k] == p[k - |a|];
    assert forall k :: |b| <= k < |s| ==> s[k] == q[k - |b|];
    assert a != [] ==> s[|a| - 1] == 10;
    assert b != [] ==> s[|b| - 1] == 10;
    SameLength(a, p, b, q);
  }

  // Equal streams of such files are of the same names and contents, though neither list was known.
  lemma {:induction false} LinedDetermines(a: seq<int>, paths: seq<Path>, f: Files, b: seq<int>, others: seq<Path>, g: Files)
    requires Present(paths, f) && Present(others, g) && AreLined(paths, f) && AreLined(others, g)
    requires IsLined(a) && IsLined(b) && a + Stream(paths, f) == b + Stream(others, g)
    ensures a == b && paths == others && Agree(paths, f, g)
    decreases |paths|
  {
    hide Values;
    if paths == [] || others == [] {
      NoFiles(a, paths, f);
      NoFiles(b, others, g);
    } else {
      var p, q, c, d := Values(paths[0]), Values(others[0]), Values(f[paths[0]]), Values(g[others[0]]);
      var u, v := Stream(paths[1..], f), Stream(others[1..], g);
      FirstOfLined(a, paths, f);
      FirstOfLined(b, others, g);
      FirstMark(0, a + p, c + u, b + q, d + v);
      LastMark(a, p, b, q);
      ValuesInjective(paths[0], others[0]);
      LinedDetermines(c, paths[1..], f, d, others[1..], g);
      ValuesInjective(f[paths[0]], g[others[0]]);
      assert paths == [paths[0]] + paths[1..] && others == [others[0]] + others[1..];
      assert forall i :: 0 < i < |paths| ==> paths[i] == paths[1..][i - 1];
    }
  }

  // A stream that is not empty holds a zero byte.
  lemma NoFiles(a: seq<int>, paths: seq<Path>, f: Files)
    requires Present(paths, f) && IsLined(a)
    ensures 0 in a + Stream(paths, f) <==> paths != []
    ensures paths == [] ==> a + Stream(paths, f) == a
  {
    hide Values;
    if paths != [] {
      var p, s := Values(paths[0]), a + Stream(paths, f);
      assert s[|a| + |p|] == 0;
    }
  }

  lemma FirstOfLined(a: seq<int>, paths: seq<Path>, f: Files)
    requires paths != [] && Present(paths, f)
    ensures a + Stream(paths, f) == (a + Values(paths[0])) + [0] + (Values(f[paths[0]]) + Stream(paths[1..], f))
  {
    hide Values;
    MarkOutside(a, Values(paths[0]), Values(f[paths[0]]), Stream(paths[1..], f), []);
    EmptyEnds(Stream(paths, f), Values(f[paths[0]]) + Stream(paths[1..], f));
  }

  lemma EmptyEnds(a: seq<int>, b: seq<int>)
    ensures a + [] == a && b + [] == b
  {
  }

  // So two states with equal streams are of one command and the same named files.
  lemma LinedStatesDetermine(cmd: seq<string>, deps: seq<Path>, f: Files, x: seq<int>,
                             other: seq<string>, others: seq<Path>, g: Files, y: seq<int>)
    requires Present(deps, f) && Present(others, g) && AreLined(deps, f) && AreLined(others, g) && |x| == |y|
    requires (forall i :: 0 <= i < |cmd| ==> IsArgument(cmd[i])) && (forall i :: 0 <= i < |other| ==> IsArgument(other[i]))
    requires StateStream(cmd, deps, f, x) == StateStream(other, others, g, y)
    ensures cmd == other && deps == others && Agree(deps, f, g) && x == y
  {
    hide CmdText, IsArgument, SignedValues, Signed, Stream, AreLined, Agree;
    var a, b, s, u := SignedValues(CmdText(cmd)), SignedValues(CmdText(other)), Stream(deps, f), Stream(others, g);
    TextIsNonzero(cmd);
    TextIsNonzero(other);
    TextIsLined(cmd);
    TextIsLined(other);
    SameEnds(a + s, x, b + u, y);
    LinedDetermines(a, deps, f, b, others, g);
    SignedValuesInjective(CmdText(cmd), CmdText(other));
    CmdTextDetermines(cmd, other);
  }

  lemma SameEnds(a: seq<int>, x: seq<int>, b: seq<int>, y: seq<int>)
    requires a + x == b + y && |x| == |y|
    ensures a == b && x == y
  {
    assert |a + x| == |a| + |x| && |b + y| == |b| + |y|;
    SameLength(a, x, b, y);
  }

  lemma {:induction false} TextIsLined(cmd: seq<string>)
    ensures var t := CmdText(cmd); t == "" || t[|t| - 1] == '\n'
    ensures var v := SignedValues(CmdText(cmd)); v == [] || v[|v| - 1] == 10
    decreases |cmd|
  {
    if cmd != [] { TextIsLined(cmd[1..]); }
  }
}
