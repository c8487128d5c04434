// The compiler's dependency files, and the driver's reader for them.
module Depfile {
  import opened Bytes

  predicate IsSpace(c: char) { c == ' ' || c == '\t' || c == '\n' || c == '\r' }

  // What follows the target: the first ':' before white space or the end.
  function AfterTarget(d: string): (r: Option<string>)
    ensures r.Some? ==> |r.value| < |d|
  {
    if d == "" then None
    else if d[0] == ':' && (|d| == 1 || IsSpace(d[1])) then Some(d[1..])
    else AfterTarget(d[1..])
  }

  function WordEnd(d: string): (e: nat)
    ensures e <= |d| && (e < |d| ==> IsSpace(d[e])) && (d != "" && !IsSpace(d[0]) ==> e > 0)
    ensures forall k :: 0 <= k < e ==> !IsSpace(d[k])
  {
    if d == "" || IsSpace(d[0]) then 0 else 1 + WordEnd(d[1..])
  }

  predicate IsContinuation(d: string) { |d| > 1 && d[0] == '\\' && (d[1] == '\n' || d[1] == '\r') }

  // The words up to the end or to a second rule.
  function Words(d: string): seq<string>
    decreases |d|
  {
    if d == "" then []
    else if IsSpace(d[0]) || IsContinuation(d) then Words(d[1..])
    else
      var e := WordEnd(d);
      if d[e - 1] == ':' then [] else [d[..e]] + Words(d[e..])
  }

  // The files a dependency file names; none is a failure.
  function Parse(d: string): Option<seq<string>> {
    match AfterTarget(d)
    case None => None
    case Some(rest) => if Words(rest) == [] then None else Some(Words(rest))
  }

  // A line may be continued with either kind of line end.
  lemma Continued(d: string)
    ensures Words("\\\n" + d) == Words(d) && Words("\\\r\n" + d) == Words(d)
  {
    WordsAfter('\\', "\n" + d);
    WordsAfter('\n', d);
    WordsAfter('\\', "\r\n" + d);
    WordsAfter('\r', "\n" + d);
    assert "\r\n" + d == ['\r'] + ("\n" + d) && "\\\n" + d == ['\\'] + ("\n" + d) && "\\\r\n" + d == ['\\'] + ("\r\n" + d);
  }

  lemma WordsAfter(c: char, d: string)
    requires IsSpace(c) || IsContinuation([c] + d)
    ensures Words([c] + d) == Words(d)
  {
    assert ([c] + d)[1..] == d;
  }

  lemma {:induction false} WordEndAt(d: string, i: nat, e: nat)
    requires i <= e <= |d| && (e < |d| ==> IsSpace(d[e]))
    requires forall k :: i <= k < e ==> !IsSpace(d[k])
    ensures WordEnd(d[i..]) == e - i
    decreases e - i
  {
    if i < e {
      WordEndAt(d, i + 1, e);
      assert d[i..][1..] == d[i + 1..];
    }
  }

  // The unfoldings of Words at a place of the text.
  lemma WordsAt(d: string, i: nat)
    requires i <= |d|
    ensures i == |d| ==> Words(d[i..]) == []
    ensures i < |d| && (IsSpace(d[i]) || IsContinuation(d[i..])) ==> Words(d[i..]) == Words(d[i + 1..])
  {
    if i < |d| { assert d[i..][1..] == d[i + 1..]; }
  }

  lemma WordAt(d: string, i: nat, e: nat)
    requires i < e <= |d| && (e < |d| ==> IsSpace(d[e])) && !IsContinuation(d[i..])
    requires forall k :: i <= k < e ==> !IsSpace(d[k])
    ensures Words(d[i..]) == if d[e - 1] == ':' then [] else [d[i..e]] + Words(d[e..])
  {
    WordEndAt(d, i, e);
    assert d[i..][..e - i] == d[i..e] && d[i..][e - i..] == d[e..];
  }

  method SkipTarget(d: string) returns (i: nat)
    ensures AfterTarget(d) == if i <= |d| then Some(d[i..]) else None
  {
    i := 0;
    assert d[0..] == d;
    while i < |d| && !(d[i] == ':' && (i + 1 == |d| || IsSpace(d[i + 1])))
      invariant i <= |d| && AfterTarget(d[i..]) == AfterTarget(d)
    {
      assert d[i..][1..] == d[i + 1..];
      i := i + 1;
    }
    if i < |d| {
      assert d[i..][1..] == d[i + 1..];
    }
    i := i + 1;
  }

  // read_depfile, on the text of the file.
  method ReadDepfile(d: string) returns (r: Option<seq<string>>)
    ensures r == Parse(d)
  {
    hide Words, IsContinuation;
    var i := SkipTarget(d);
    if i > |d| {
      return None;
    }
    ghost var all := Words(d[i..]);
    var out: seq<string> := [];
    while i < |d|
      invariant i <= |d| && out + Words(d[i..]) == all
    {
      WordsAt(d, i);
      if IsSpace(d[i]) || IsContinuation(d[i..]) {
        i := i + 1;
        continue;
      }
      var start := i;
      while i < |d| && !IsSpace(d[i])
        invariant start <= i <= |d| && forall k :: start <= k < i ==> !IsSpace(d[k])
      {
        i := i + 1;
      }
      WordAt(d, start, i);
      if d[i - 1] == ':' {
        assert out == all;
        break;
      }
      out := out + [d[start..i]];
    }
    WordsAt(d, |d|);
    assert out == all;
    r := if |out| > 0 then Some(out) else None;
  }

  // ----- what a compiler writes -----

  function Slashes(n: nat): (s: string)
    ensures |s| == n && forall k :: 0 <= k < n ==> s[k] == '\\'
  {
    seq(n, _ => '\\')
  }

  // A name in make's syntax, with this many backslashes before it: a blank takes a backslash and doubles
  // those before it, a hash sign takes one, a dollar sign is doubled.
  function Munge(p: string, slashes: nat): string
    decreases |p|
  {
    if p == "" then ""
    else if p[0] == ' ' || p[0] == '\t' then Slashes(slashes) + ['\\', p[0]] + Munge(p[1..], 0)
    else if p[0] == '#' then ['\\', '#'] + Munge(p[1..], 0)
    else if p[0] == '$' then ['$', '$'] + Munge(p[1..], 0)
    else [p[0]] + Munge(p[1..], if p[0] == '\\' then slashes + 1 else 0)
  }

  predicate Spaced(s: string) { exists k :: 0 <= k < |s| && IsSpace(s[k]) }

  // make's syntax leaves the name as it is.
  predicate Unescaped(s: string) { '$' !in s && '#' !in s }

  lemma {:induction false} MungeGrows(p: string, slashes: nat)
    requires !Spaced(p)
    ensures !Spaced(Munge(p, slashes)) && |Munge(p, slashes)| >= |p|
    ensures p != "" ==> Munge(p, slashes) != "" && Munge(p, slashes)[|Munge(p, slashes)| - 1] == p[|p| - 1]
    ensures Unescaped(p) ==> Munge(p, slashes) == p
    ensures !Unescaped(p) ==> |Munge(p, slashes)| > |p|
    decreases |p|
  {
    hide Spaced, Unescaped, Munge;
    MungeUnfolds(p, slashes);
    if p == "" {
      NothingSpaced();
    } else {
      var rest, n := p[1..], if p[0] == '\\' then slashes + 1 else 0;
      SpacedRest(p);
      assert p == [p[0]] + rest;
      MungeUnfolds(rest, n);
      MungeUnfolds(rest, 0);
      MungeGrows(rest, n);
      MungeGrows(rest, 0);
      MungeStep(p[0], rest, Munge(p, slashes), Munge(rest, n), Munge(rest, 0));
    }
  }

  lemma MungeUnfolds(p: string, slashes: nat)
    ensures p == "" ==> Munge(p, slashes) == ""
    ensures p != "" && !IsSpace(p[0]) ==>
              Munge(p, slashes) ==
              if p[0] == '#' then ['\\', '#'] + Munge(p[1..], 0)
              else if p[0] == '$' then ['$', '$'] + Munge(p[1..], 0)
              else [p[0]] + Munge(p[1..], if p[0] == '\\' then slashes + 1 else 0)
  {
  }

  lemma NothingSpaced()
    ensures !Spaced("") && Unescaped("")
  {
  }

  lemma SpacedRest(p: string)
    requires p != "" && !Spaced(p)
    ensures !Spaced(p[1..]) && !IsSpace(p[0])
  {
    forall k | 0 <= k < |p| - 1 ensures !IsSpace(p[1..][k]) {
      assert p[1..][k] == p[k + 1];
    }
  }

  lemma MungeStep(c: char, rest: string, m: string, more: string, more0: string)
    requires !IsSpace(c) && !Spaced(more) && !Spaced(more0)
    requires m == if c == '#' then ['\\', '#'] + more0 else if c == '$' then ['$', '$'] + more0 else [c] + more
    requires |more| >= |rest| && |more0| >= |rest|
    requires rest != "" ==> more != "" && more[|more| - 1] == rest[|rest| - 1]
    requires rest != "" ==> more0 != "" && more0[|more0| - 1] == rest[|rest| - 1]
    requires Unescaped(rest) ==> more == rest && more0 == rest
    requires !Unescaped(rest) ==> |more| > |rest| && |more0| > |rest|
    requires rest == "" ==> more == "" && more0 == ""
    ensures var p := [c] + rest;
            && !Spaced(m) && |m| >= |p| && m != "" && m[|m| - 1] == p[|p| - 1]
            && (Unescaped(p) ==> m == p) && (!Unescaped(p) ==> |m| > |p|)
  {
  }

  // A path in a list, on the same line or after a continuation.
  datatype Entry = Entry(newLine: bool, path: string)

  function Listing(entries: seq<Entry>): string {
    if entries == [] then ""
    else (if entries[0].newLine then " \\\n " else " ") + Munge(entries[0].path, 0) + Listing(entries[1..])
  }

  function Paths(entries: seq<Entry>): seq<string> {
    if entries == [] then [] else [entries[0].path] + Paths(entries[1..])
  }

  // A line with a target of its own: a word that ends in ':' at place n.
  predicate IsRule(tail: string, n: nat) {
    && 1 < n < |tail| && tail[0] == '\n' && tail[n - 1] == ':' && IsSpace(tail[n])
    && forall k :: 1 <= k < n ==> !IsSpace(tail[k])
  }

  // Nothing more, or further rules, one for each phony target.
  ghost predicate IsTail(tail: string) { tail == "\n" || exists n :: IsRule(tail, n) }

  lemma WordsOfTail(tail: string)
    requires IsTail(tail)
    ensures Words(tail) == []
  {
    if tail != "\n" {
      var n :| IsRule(tail, n);
      var d := tail[1..];
      assert d[n - 2] == ':' && !IsSpace(d[0]);
      WordEndAt(tail, 1, n);
      assert Words(tail) == Words(d);
    } else {
      assert tail[1..] == "";
    }
  }

  // One word before white space: lost if it is empty, or a lone backslash before a line's end; the end of
  // the list if it looks like a rule.
  lemma WordsOfWord(w: string, rest: string)
    requires !Spaced(w) && rest != "" && IsSpace(rest[0])
    ensures w == "" || (w == "\\" && (rest[0] == '\n' || rest[0] == '\r')) ==> Words(w + rest) == Words(rest)
    ensures w != "" && !(w == "\\" && (rest[0] == '\n' || rest[0] == '\r')) ==>
              Words(w + rest) == if w[|w| - 1] == ':' then [] else [w] + Words(rest)
  {
    var d := w + rest;
    if w == "" {
      assert d == rest;
    } else {
      assert forall k :: 0 <= k < |w| ==> d[k] == w[k] && !IsSpace(w[k]);
      WordEndAt(d, 0, |w|);
      assert d[0..] == d && d[..|w|] == w && d[|w|..] == rest;
      assert d[1..] == w[1..] + rest;
      if |w| == 1 { assert d[1..] == rest; }
    }
  }

  lemma WordsOfGap(newLine: bool, rest: string)
    ensures Words((if newLine then " \\\n " else " ") + rest) == Words(rest)
  {
    assert (" " + rest)[1..] == rest;
    if newLine {
      var d := " \\\n " + rest;
      assert d[1..] == "\\\n " + rest && d[1..][1..] == "\n " + rest;
      assert ("\n " + rest)[1..] == " " + rest;
      assert Words(d) == Words(d[1..]) == Words("\n " + rest) == Words(" " + rest);
    }
  }

  // What the reader makes of the names of a list.
  function Kept(entries: seq<Entry>): seq<string> {
    if entries == [] then []
    else
      var w := Munge(entries[0].path, 0);
      if w == "" || (w == "\\" && |entries| == 1) then Kept(entries[1..])
      else if w[|w| - 1] == ':' then []
      else [w] + Kept(entries[1..])
  }

  lemma {:induction false} WordsOfListing(entries: seq<Entry>, tail: string)
    requires (forall i :: 0 <= i < |entries| ==> !Spaced(entries[i].path)) && IsTail(tail)
    ensures Words(Listing(entries) + tail) == Kept(entries)
    decreases |entries|
  {
    hide Words, IsTail, Munge, Spaced;
    if entries == [] {
      WordsOfTail(tail);
      assert "" + tail == tail;
    } else {
      var e, more := entries[0], Listing(entries[1..]) + tail;
      var w := Munge(e.path, 0);
      WordsOfListing(entries[1..], tail);
      StartsWithSpace(entries[1..], tail);
      MungeGrows(e.path, 0);
      WordsOfWord(w, more);
      WordsOfGap(e.newLine, w + more);
      ListingStep(entries, tail);
    }
  }

  lemma ListingStep(entries: seq<Entry>, tail: string)
    requires entries != []
    ensures Listing(entries) + tail ==
            (if entries[0].newLine then " \\\n " else " ") + (Munge(entries[0].path, 0) + (Listing(entries[1..]) + tail))
  {
    hide Munge;
  }

  lemma StartsWithSpace(entries: seq<Entry>, tail: string)
    requires IsTail(tail)
    ensures var s := Listing(entries) + tail;
            s != "" && IsSpace(s[0]) && ((s[0] == '\n' || s[0] == '\r') <==> entries == [])
  {
    hide Munge;
  }

  // ----- the target -----

  // No ':' before white space, so the reader does not stop inside it.
  predicate Unsplit(s: string) { forall k :: 0 <= k < |s| - 1 && s[k] == ':' ==> !IsSpace(s[k + 1]) }

  lemma {:induction false} MungeUnsplit(p: string, slashes: nat)
    requires '\n' !in p && '\r' !in p
    ensures Unsplit(Munge(p, slashes)) && (p != "" ==> Munge(p, slashes) != "" && !IsSpace(Munge(p, slashes)[0]))
    decreases |p|
  {
    hide Unsplit;
    if p != "" {
      var rest, n := p[1..], if p[0] == '\\' then slashes + 1 else 0;
      MungeUnsplit(rest, n);
      MungeUnsplit(rest, 0);
      assert p[0] in p;
      if p[0] == ' ' || p[0] == '\t' {
        UnsplitHead(Slashes(slashes) + ['\\', p[0]], Munge(rest, 0));
      } else if p[0] == '#' {
        UnsplitHead(['\\', '#'], Munge(rest, 0));
      } else if p[0] == '$' {
        UnsplitHead(['$', '$'], Munge(rest, 0));
      } else {
        UnsplitHead([p[0]], Munge(rest, n));
      }
    } else {
      UnsplitHead("", "");
      assert "" + "" == "";
    }
  }

  lemma UnsplitHead(head: string, more: string)
    requires Unsplit(more) || more == ""
    requires more != "" ==> !IsSpace(more[0])
    requires forall k :: 0 <= k < |head| - 1 ==> head[k] != ':'
    ensures Unsplit(head + more)
  {
  }

  lemma {:induction false} TargetSkipped(target: string, rest: string)
    requires Unsplit(target) && rest != "" && IsSpace(rest[0])
    ensures AfterTarget(target + ":" + rest) == Some(rest)
    decreases |target|
  {
    var d := target + ":" + rest;
    if target == "" {
      assert d[1..] == rest;
    } else {
      var t := target[1..];
      TargetSkipped(t, rest);
      assert d[1..] == t + ":" + rest;
    }
  }

  // ----- when the names come back -----

  lemma {:induction false} WordsAreUnspaced(d: string)
    ensures forall w :: w in Words(d) ==> !Spaced(w)
    decreases |d|
  {
    if d != "" {
      if IsSpace(d[0]) || IsContinuation(d) {
        WordsAreUnspaced(d[1..]);
      } else {
        var e := WordEnd(d);
        WordsAreUnspaced(d[e..]);
        assert forall k :: 0 <= k < e ==> d[..e][k] == d[k];
      }
    }
  }

  // A list the reader gives back: names, each in a word that is no rule, and the last not lost as a
  // continuation of the line.
  predicate IsPlain(entries: seq<Entry>) {
    && entries != [] && entries[|entries| - 1].path != "\\"
    && forall i :: 0 <= i < |entries| ==> IsPlainName(entries[i].path)
  }

  // No white space, no dollar or hash sign, no colon at the end.
  predicate IsPlainName(p: string) {
    p != "" && !Spaced(p) && Unescaped(p) && p[|p| - 1] != ':'
  }

  lemma {:induction false} KeptExactly(entries: seq<Entry>)
    requires forall i :: 0 <= i < |entries| ==> !Spaced(entries[i].path)
    ensures |Kept(entries)| <= |entries|
    ensures Kept(entries) == Paths(entries) && entries != [] <==> IsPlain(entries)
    decreases |entries|
  {
    hide Munge, Spaced, Unescaped;
    if entries != [] {
      var p, rest := entries[0].path, entries[1..];
      KeptExactly(rest);
      MungeGrows(p, 0);
      PathsLength(rest);
      PlainStep(entries);
      hide IsPlain, IsPlainName;
      KeptStep(p, Munge(p, 0), |rest|, Kept(rest), Paths(rest));
      PlainNameIs(p);
    }
  }

  lemma PlainNameIs(p: string)
    ensures IsPlainName(p) <==> p != "" && !Spaced(p) && Unescaped(p) && p[|p| - 1] != ':'
  {
  }

  lemma KeptStep(p: string, w: string, n: nat, kept: seq<string>, paths: seq<string>)
    requires |kept| <= n && |paths| == n
    requires p != "" ==> w != "" && w[|w| - 1] == p[|p| - 1]
    requires |w| >= |p| && (Unescaped(p) ==> w == p) && (!Unescaped(p) ==> |w| > |p|)
    ensures var all := if w == "" || (w == "\\" && n == 0) then kept else if w[|w| - 1] == ':' then [] else [w] + kept;
            && |all| <= n + 1
            && (all == [p] + paths <==>
                  kept == paths && p != "" && Unescaped(p) && p[|p| - 1] != ':' && (n == 0 ==> p != "\\"))
  {
    hide Unescaped;
    var all := [w] + kept;
    assert all == [p] + paths <==> w == p && kept == paths by {
      if all == [p] + paths {
        assert all[0] == w && ([p] + paths)[0] == p && all[1..] == kept && ([p] + paths)[1..] == paths;
      }
    }
  }

  lemma PathsLength(entries: seq<Entry>)
    ensures |Paths(entries)| == |entries|
  {
  }

  lemma PlainStep(entries: seq<Entry>)
    requires entries != []
    ensures IsPlain(entries) <==>
            IsPlainName(entries[0].path) && if |entries| == 1 then entries[0].path != "\\" else IsPlain(entries[1..])
  {
    hide IsPlainName;
    var rest := entries[1..];
    if |entries| > 1 {
      assert rest[|rest| - 1] == entries[|entries| - 1];
      assert forall i :: 0 <= i < |rest| ==> rest[i] == entries[i + 1];
      if IsPlain(rest) && IsPlainName(entries[0].path) {
        forall i | 0 <= i < |entries| ensures IsPlainName(entries[i].path) {
          assert i > 0 ==> entries[i] == rest[i - 1];
        }
      }
    }
  }

  lemma {:induction false} PathsAre(entries: seq<Entry>)
    ensures |Paths(entries)| == |entries| && forall i :: 0 <= i < |entries| ==> Paths(entries)[i] == entries[i].path
  {
    if entries != [] { PathsAre(entries[1..]); }
  }

  // The reader, which undoes no escape, gives back the names a compiler wrote - continuations, phony
  // rules and drive letters included - if and only if none of them has white space, a dollar sign, a
  // hash sign or a final colon, none is empty, and the last is no lone backslash.
  lemma RoundTrip(target: string, entries: seq<Entry>, tail: string)
    requires '\n' !in target && '\r' !in target && IsTail(tail)
    ensures Parse(Munge(target, 0) + ":" + Listing(entries) + tail) == Some(Paths(entries)) <==> IsPlain(entries)
  {
    hide Words, AfterTarget, Listing, Paths, IsTail, Munge, Unsplit, Kept, Spaced;
    var list, m := Listing(entries), Munge(target, 0);
    StartsWithSpace(entries, tail);
    MungeUnsplit(target, 0);
    TargetSkipped(m, list + tail);
    assert m + ":" + list + tail == m + ":" + (list + tail);
    WordsAreUnspaced(list + tail);
    PathsAre(entries);
    if forall i :: 0 <= i < |entries| ==> !Spaced(entries[i].path) {
      WordsOfListing(entries, tail);
      KeptExactly(entries);
    } else {
      var i :| 0 <= i < |entries| && Spaced(entries[i].path);
      assert Paths(entries)[i] in Paths(entries);
    }
  }

  // A header whose name holds a dollar sign is read back under another name.
  lemma DollarIsLost()
    ensures var entries := [Entry(false, "a$b.h")];
            Parse(Munge("a.o", 0) + ":" + Listing(entries) + "\n") != Some(Paths(entries))
  {
    hide Parse, Munge, Listing, Paths;
    var entries := [Entry(false, "a$b.h")];
    RoundTrip("a.o", entries, "\n");
    assert "a$b.h"[1] == '$';
  }

  // Two lines of names, and a rule of -MP.
  lemma ReadExample()
    ensures Parse("a.o: a.c b.h \\\n c.h\nb.h:\n") == Some(["a.c", "b.h", "c.h"])
  {
    hide Parse, Munge, Listing, Paths, IsTail, IsPlainName;
    var c, b, a: seq<Entry> := [Entry(true, "c.h")], [Entry(false, "b.h")], [Entry(false, "a.c")];
    PlainExample("a.c"); PlainExample("b.h"); PlainExample("c.h"); PlainExample("a.o");
    OneEntry(false, "a.c", b + c);
    OneEntry(false, "b.h", c);
    OneEntry(true, "c.h", []);
    NoEntries();
    assert c == [Entry(true, "c.h")] + [];
    RuleExample();
    var entries := a + (b + c);
    assert entries[0].path == "a.c" && entries[1].path == "b.h" && entries[2].path == "c.h" && |entries| == 3;
    assert IsPlain(entries);
    RoundTrip("a.o", entries, "\nb.h:\n");
    assert Paths(entries) == ["a.c"] + (["b.h"] + (["c.h"] + [])) == ["a.c", "b.h", "c.h"];
    TextExample();
    assert Munge("a.o", 0) + ":" + Listing(entries) + "\nb.h:\n" == "a.o: a.c b.h \\\n c.h\nb.h:\n";
  }

  lemma TextExample()
    ensures "a.o" + ":" + (" " + "a.c" + (" " + "b.h" + (" \\\n " + "c.h" + ""))) + "\nb.h:\n" == "a.o: a.c b.h \\\n c.h\nb.h:\n"
  {
  }

  lemma NoEntries()
    ensures Listing([]) == "" && Paths([]) == []
  {
  }

  lemma OneEntry(newLine: bool, path: string, rest: seq<Entry>)
    ensures Listing([Entry(newLine, path)] + rest) == (if newLine then " \\\n " else " ") + Munge(path, 0) + Listing(rest)
    ensures Paths([Entry(newLine, path)] + rest) == [path] + Paths(rest)
  {
    hide Munge;
    assert ([Entry(newLine, path)] + rest)[1..] == rest;
  }

  lemma PlainExample(p: string)
    requires |p| == 3 && forall i :: 0 <= i < 3 ==> !IsSpace(p[i]) && p[i] != '$' && p[i] != '#' && (i == 2 ==> p[i] != ':')
    ensures Munge(p, 0) == p && IsPlainName(p)
  {
    hide Munge;
    MungeGrows(p, 0);
  }

  lemma RuleExample()
    ensures IsTail("\nb.h:\n")
  {
    assert IsRule("\nb.h:\n", 5);
  }
}
