// Quoting a command line for Windows, and Microsoft's rules for taking a
// command line apart ("Parsing C command-line arguments").
module WinQuote {
  import opened Bytes
  import opened StringBuilder

  function Repeat(c: char, n: nat): (s: string)
    ensures |s| == n && forall i :: 0 <= i < n ==> s[i] == c
  {
    seq(n, _ => c)
  }

  // ----- Microsoft's parser -----

  // The backslashes at the head of a string.
  function Run(s: string): (n: nat)
    ensures n <= |s| && forall i :: 0 <= i < n ==> s[i] == '\\'
    ensures n < |s| ==> s[n] != '\\'
  {
    if s != "" && s[0] == '\\' then 1 + Run(s[1..]) else 0
  }

  predicate IsBlank(c: char) { c == ' ' || c == '\t' }

  // The rest of one argument, in or out of double quotes, and what follows it. Backslashes are literal
  // unless a double quote follows them; then each pair is one backslash, an odd one makes the quote
  // literal, and otherwise the quote opens or closes - a pair of them inside quotes is one quote.
  function Scan(s: string, quoted: bool): (r: (string, string))
    ensures |r.1| <= |s|
    ensures s != "" && (quoted || !IsBlank(s[0])) ==> |r.1| < |s|
    decreases |s|
  {
    var n := Run(s);
    if n == |s| then (s, "")
    else if s[n] == '"' then
      if n % 2 == 1 then
        var (text, rest) := Scan(s[n + 1..], quoted);
        (Repeat('\\', n / 2) + ['"'] + text, rest)
      else if quoted && n + 1 < |s| && s[n + 1] == '"' then
        var (text, rest) := Scan(s[n + 2..], quoted);
        (Repeat('\\', n / 2) + ['"'] + text, rest)
      else
        var (text, rest) := Scan(s[n + 1..], !quoted);
        (Repeat('\\', n / 2) + text, rest)
    else if !quoted && IsBlank(s[n]) then (s[..n], s[n..])
    else
      var (text, rest) := Scan(s[n + 1..], quoted);
      (s[..n + 1] + text, rest)
  }

  function SkipBlanks(s: string): (r: string)
    ensures |r| <= |s| && (r == "" || !IsBlank(r[0]))
  {
    if s != "" && IsBlank(s[0]) then SkipBlanks(s[1..]) else s
  }

  function Parse(s: string): seq<string>
    decreases |s|
  {
    var t := SkipBlanks(s);
    if t == "" then [] else
      var (arg, rest) := Scan(t, false);
      [arg] + Parse(rest)
  }

  // ----- the printer -----

  // strpbrk(arg, " \t\n\v\"")
  predicate IsSpecial(c: char) { c == ' ' || c == '\t' || c == '\n' || c == '\U{0b}' || c == '"' }

  predicate HasSpecial(arg: string) { exists i :: 0 <= i < |arg| && IsSpecial(arg[i]) }

  // What follows the opening quote, with this many backslashes just written.
  function Escape(arg: string, backslashes: nat): string {
    if arg == "" then Repeat('\\', backslashes)
    else if arg[0] == '\\' then [arg[0]] + Escape(arg[1..], backslashes + 1)
    else if arg[0] == '"' then Repeat('\\', 1 + backslashes) + [arg[0]] + Escape(arg[1..], 0)
    else [arg[0]] + Escape(arg[1..], 0)
  }

  function QuoteArg(arg: string): string {
    if arg != "" && !HasSpecial(arg) then arg else ['"'] + Escape(arg, 0) + ['"']
  }

  function QuoteAll(args: seq<string>): string {
    if args == [] then ""
    else if |args| == 1 then QuoteArg(args[0])
    else QuoteAll(args[..|args| - 1]) + [' '] + QuoteArg(args[|args| - 1])
  }

  // An argument stays as it is exactly if it is not empty and holds no space, tab, new line, vertical tab or quote.
  lemma PlainExactly(arg: string)
    ensures QuoteArg(arg) == arg <==>
            arg != "" && !exists i :: 0 <= i < |arg| && arg[i] in " \t\n\U{0b}\""
  {
    hide Escape;
    if QuoteArg(arg) == arg && arg != "" && HasSpecial(arg) {
      EscapeLonger(arg, 0);
    }
  }

  lemma {:induction false} EscapeLonger(arg: string, backslashes: nat)
    ensures |Escape(arg, backslashes)| >= |arg|
  {
    if arg != "" {
      EscapeLonger(arg[1..], if arg[0] == '\\' then backslashes + 1 else 0);
    }
  }

  // The arguments before the first null pointer.
  function Args(cmd: seq<Option<string>>): seq<string> {
    if cmd == [] || cmd[0].None? then [] else [cmd[0].value] + Args(cmd[1..])
  }

  // ----- one argument and what follows it -----

  // What may follow an argument: nothing, or a blank.
  predicate Boundary(tail: string) { tail == "" || IsBlank(tail[0]) }

  lemma RunOf(n: nat, rest: string)
    requires rest == "" || rest[0] != '\\'
    ensures Run(Repeat('\\', n) + rest) == n
  {
    var s := Repeat('\\', n) + rest;
    assert rest != "" ==> s[n] == rest[0];
    assert forall i :: 0 <= i < n ==> s[i] == '\\';
  }

  lemma ScanBoundary(tail: string)
    requires Boundary(tail)
    ensures Scan(tail, false) == ("", tail)
  {
  }

  // The unfoldings of Scan, by what ends the leading run of backslashes.
  lemma ScanOrdinary(s: string, n: nat, quoted: bool)
    requires n == Run(s) < |s| && s[n] != '"' && (quoted || !IsBlank(s[n]))
    ensures Scan(s, quoted) == (s[..n + 1] + Scan(s[n + 1..], quoted).0, Scan(s[n + 1..], quoted).1)
  {
    hide Run;
  }

  lemma ScanOddQuote(s: string, n: nat, quoted: bool)
    requires n == Run(s) < |s| && s[n] == '"' && n % 2 == 1
    ensures Scan(s, quoted) == (Repeat('\\', n / 2) + ['"'] + Scan(s[n + 1..], quoted).0, Scan(s[n + 1..], quoted).1)
  {
    hide Run, Repeat;
  }

  lemma ScanEvenQuote(s: string, n: nat, quoted: bool)
    requires n == Run(s) < |s| && s[n] == '"' && n % 2 == 0
    requires quoted ==> n + 1 == |s| || s[n + 1] != '"'
    ensures Scan(s, quoted) == (Repeat('\\', n / 2) + Scan(s[n + 1..], !quoted).0, Scan(s[n + 1..], !quoted).1)
  {
    hide Run, Repeat;
  }

  lemma ScanRunPlain(n: nat, c: char, rest: string, quoted: bool)
    requires c != '\\' && c != '"' && (quoted || !IsBlank(c))
    ensures var (text, tail) := Scan(rest, quoted);
            Scan(Repeat('\\', n) + [c] + rest, quoted) == (Repeat('\\', n) + [c] + text, tail)
  {
    hide Scan;
    var s := Repeat('\\', n) + ([c] + rest);
    RunOf(n, [c] + rest);
    assert s == Repeat('\\', n) + [c] + rest;
    assert s[n + 1..] == rest && s[..n + 1] == Repeat('\\', n) + [c];
    ScanOrdinary(s, n, quoted);
  }

  lemma ScanRunQuote(n: nat, rest: string, quoted: bool)
    ensures var (text, tail) := Scan(rest, quoted);
            Scan(Repeat('\\', 2 * n + 1) + ['"'] + rest, quoted) == (Repeat('\\', n) + ['"'] + text, tail)
  {
    hide Scan;
    var s := Repeat('\\', 2 * n + 1) + (['"'] + rest);
    RunOf(2 * n + 1, ['"'] + rest);
    assert s == Repeat('\\', 2 * n + 1) + ['"'] + rest;
    assert s[2 * n + 2..] == rest;
    ScanOddQuote(s, 2 * n + 1, quoted);
  }

  // The closing quote, after an even run.
  lemma ScanClose(n: nat, tail: string)
    requires Boundary(tail)
    ensures Scan(Repeat('\\', 2 * n) + ['"'] + tail, true) == (Repeat('\\', n), tail)
  {
    ScanBoundary(tail);
    hide Scan;
    var s := Repeat('\\', 2 * n) + (['"'] + tail);
    RunOf(2 * n, ['"'] + tail);
    assert s == Repeat('\\', 2 * n) + ['"'] + tail;
    assert s[2 * n + 1..] == tail;
    assert tail != "" ==> s[2 * n + 1] == tail[0];
    ScanEvenQuote(s, 2 * n, true);
    assert Repeat('\\', n) + "" == Repeat('\\', n);
  }

  // The line after the next character, by what that character is.
  lemma EscapeSlash(bs: string, n: nat, rest: string, end: string)
    requires bs == Repeat('\\', n)
    ensures bs + Escape(['\\'] + rest, n) + end == Repeat('\\', n + 1) + Escape(rest, n + 1) + end
  {
    assert (['\\'] + rest)[1..] == rest;
    var e := Escape(rest, n + 1);
    hide Escape;
    assert bs + (['\\'] + e) == Repeat('\\', n + 1) + e;
  }

  lemma EscapeQuote(bs: string, n: nat, rest: string, end: string)
    requires bs == Repeat('\\', n)
    ensures bs + Escape(['"'] + rest, n) + end == Repeat('\\', 2 * n + 1) + ['"'] + (Escape(rest, 0) + end)
  {
    assert (['"'] + rest)[1..] == rest;
    var e := Escape(rest, 0);
    assert Escape(['"'] + rest, n) == Repeat('\\', 1 + n) + ['"'] + e;
    hide Escape;
    assert bs + Repeat('\\', 1 + n) == Repeat('\\', 2 * n + 1);
    assert bs + (Repeat('\\', 1 + n) + ['"'] + e) + end == bs + Repeat('\\', 1 + n) + ['"'] + (e + end);
  }

  lemma EscapeOther(bs: string, n: nat, c: char, rest: string, end: string)
    requires c != '\\' && c != '"'
    ensures bs + Escape([c] + rest, n) + end == bs + [c] + (Escape(rest, 0) + end)
  {
    assert ([c] + rest)[1..] == rest;
    var e := Escape(rest, 0);
    assert Escape([c] + rest, n) == [c] + e;
    hide Escape;
    assert bs + ([c] + e) + end == bs + [c] + (e + end);
  }

  // Inside quotes, with this many backslashes pending.
  lemma {:induction false} ScanEscaped(arg: string, n: nat, tail: string)
    requires Boundary(tail)
    ensures Scan(Repeat('\\', n) + Escape(arg, n) + (['"'] + tail), true) == (Repeat('\\', n) + arg, tail)
    decreases |arg|
  {
    hide Scan, Repeat;
    var bs, end := Repeat('\\', n), ['"'] + tail;
    if arg == "" {
      RepeatTwice(n);
      ScanClose(n, tail);
      assert bs + arg == bs;
      assert bs + Escape(arg, n) + end == Repeat('\\', 2 * n) + ['"'] + tail;
    } else {
      var c, rest := arg[0], arg[1..];
      assert arg == [c] + rest;
      hide Escape;
      if c == '\\' {
        EscapeSlash(bs, n, rest, end);
        ScanEscaped(rest, n + 1, tail);
        RepeatMore(n, rest);
      } else {
        RepeatNone();
        ScanEscaped(rest, 0, tail);
        var after := Escape(rest, 0) + end;
        assert "" + Escape(rest, 0) + end == after && "" + rest == rest;
        if c == '"' {
          EscapeQuote(bs, n, rest, end);
          ScanRunQuote(n, after, true);
        } else {
          EscapeOther(bs, n, c, rest, end);
          ScanRunPlain(n, c, after, true);
        }
        assert bs + arg == bs + [c] + rest;
      }
    }
  }

  lemma RepeatNone()
    ensures Repeat('\\', 0) == ""
  {
  }

  lemma RepeatTwice(n: nat)
    ensures Repeat('\\', n) + Repeat('\\', n) == Repeat('\\', 2 * n)
  {
  }

  lemma RepeatMore(n: nat, rest: string)
    ensures Repeat('\\', n) + (['\\'] + rest) == Repeat('\\', n + 1) + rest
  {
  }

  // Outside quotes: an argument without special characters.
  lemma {:induction false} ScanPlain(arg: string, tail: string)
    requires !HasSpecial(arg) && Boundary(tail)
    ensures Scan(arg + tail, false) == (arg, tail)
    decreases |arg|
  {
    hide Scan;
    var n := Run(arg);
    var bs := Repeat('\\', n);
    assert arg[..n] == bs;
    if n == |arg| {
      assert arg == bs;
      ScanRunEnd(n, tail);
    } else {
      var rest := arg[n + 1..];
      NoSpecialIn(arg, n);
      ScanPlain(rest, tail);
      ScanRunPlain(n, arg[n], rest + tail, false);
      assert arg == bs + [arg[n]] + rest;
      assert arg + tail == bs + [arg[n]] + (rest + tail);
    }
  }

  lemma NoSpecialIn(arg: string, n: nat)
    requires !HasSpecial(arg) && n < |arg|
    ensures !IsSpecial(arg[n]) && !HasSpecial(arg[n + 1..])
  {
    var rest := arg[n + 1..];
    forall i | 0 <= i < |rest|
      ensures !IsSpecial(rest[i])
    {
      assert rest[i] == arg[n + 1 + i];
    }
  }

  lemma ScanRunEnd(n: nat, tail: string)
    requires Boundary(tail)
    ensures Scan(Repeat('\\', n) + tail, false) == (Repeat('\\', n), tail)
  {
    var s := Repeat('\\', n) + tail;
    RunOf(n, tail);
    assert s[..n] == Repeat('\\', n) && s[n..] == tail;
    if tail == "" { assert s == Repeat('\\', n); }
  }

  // One quoted argument is taken back out whole, and not a character of what follows it.
  lemma ScanQuoted(arg: string, tail: string)
    requires Boundary(tail)
    ensures var q := QuoteArg(arg);
            q != "" && !IsBlank(q[0]) && Scan(q + tail, false) == (arg, tail)
  {
    hide Scan, Escape;
    if arg != "" && !HasSpecial(arg) {
      NoSpecialIn(arg, 0);
      ScanPlain(arg, tail);
    } else {
      ScanInQuotes(arg, tail);
    }
  }

  lemma ScanInQuotes(arg: string, tail: string)
    requires Boundary(tail)
    ensures Scan(['"'] + Escape(arg, 0) + ['"'] + tail, false) == (arg, tail)
  {
    hide Scan, Escape, Repeat;
    var inside := Escape(arg, 0) + (['"'] + tail);
    ScanEscaped(arg, 0, tail);
    RepeatNone();
    assert "" + Escape(arg, 0) + (['"'] + tail) == inside && "" + arg == arg;
    ScanOpen(inside);
    assert ['"'] + Escape(arg, 0) + ['"'] + tail == ['"'] + inside;
  }

  lemma ScanOpen(rest: string)
    ensures Scan(['"'] + rest, false) == Scan(rest, true)
  {
    var s := ['"'] + rest;
    assert Run(s) == 0 && s[1..] == rest;
    assert Repeat('\\', 0) + Scan(rest, true).0 == Scan(rest, true).0;
  }

  // ----- the whole line -----

  // The line built from the left, as a list read from the left.
  function Joined(args: seq<string>): string {
    if args == [] then ""
    else if |args| == 1 then QuoteArg(args[0])
    else QuoteArg(args[0]) + [' '] + Joined(args[1..])
  }

  lemma {:induction false} QuoteAllIsJoined(args: seq<string>)
    ensures QuoteAll(args) == Joined(args)
    decreases |args|
  {
    hide QuoteArg;
    if |args| >= 2 {
      var n := |args| - 1;
      var front, back := args[..n], args[1..];
      QuoteAllIsJoined(front);
      QuoteAllIsJoined(back);
      if n >= 2 {
        assert front[1..] == back[..n - 1];
        QuoteAllIsJoined(back[..n - 1]);
        assert back[|back| - 1] == args[n];
      }
    }
  }

  lemma {:induction false} ParseJoined(args: seq<string>)
    ensures Parse(Joined(args)) == args
    decreases |args|
  {
    hide QuoteArg, Scan;
    if args != [] {
      var tail := if |args| == 1 then "" else [' '] + Joined(args[1..]);
      var line := Joined(args);
      assert line == QuoteArg(args[0]) + tail;
      ScanQuoted(args[0], tail);
      assert line[0] == QuoteArg(args[0])[0];
      assert SkipBlanks(line) == line;
      ParseJoined(args[1..]);
      if |args| > 1 {
        assert tail[1..] == Joined(args[1..]);
        ParseBlank(Joined(args[1..]));
      }
    }
  }

  lemma ParseBlank(s: string)
    ensures Parse([' '] + s) == Parse(s)
  {
    hide Scan;
    assert ([' '] + s)[1..] == s;
    assert SkipBlanks([' '] + s) == SkipBlanks(s);
  }

  // Every list of arguments comes back from its quoted line.
  lemma RoundTrip(args: seq<string>)
    ensures Parse(QuoteAll(args)) == args
  {
    QuoteAllIsJoined(args);
    ParseJoined(args);
  }

  // ----- nob__win32_cmd_quote -----

  lemma {:induction false} ArgsExtend(cmd: seq<Option<string>>, i: nat)
    requires i < |cmd| && forall k :: 0 <= k <= i ==> cmd[k].Some?
    ensures Args(cmd[..i + 1]) == Args(cmd[..i]) + [cmd[i].value] && |Args(cmd[..i])| == i
  {
    if i > 0 {
      ArgsExtend(cmd[1..], i - 1);
      assert cmd[..i + 1][1..] == cmd[1..][..i] && cmd[..i][1..] == cmd[1..][..i - 1];
    }
  }

  lemma {:induction false} ArgsStop(cmd: seq<Option<string>>, i: nat)
    requires i <= |cmd| && forall k :: 0 <= k < i ==> cmd[k].Some?
    requires i < |cmd| ==> cmd[i].None?
    ensures Args(cmd) == Args(cmd[..i])
  {
    if i > 0 {
      ArgsStop(cmd[1..], i - 1);
      assert cmd[..i][1..] == cmd[1..][..i - 1];
    }
  }

  lemma QuoteAllExtend(args: seq<string>, arg: string)
    ensures QuoteAll(args + [arg]) ==
            QuoteAll(args) + (if args == [] then "" else [' ']) + QuoteArg(arg)
  {
    assert (args + [arg])[..|args|] == args;
  }

  method AppendBackslashes(quoted: Builder, n: nat)
    requires quoted.Valid()
    modifies quoted, quoted.items
    ensures quoted.Valid() && quoted.Contents() == old(quoted.Contents()) + Repeat('\\', n)
    ensures quoted.items == old(quoted.items) || fresh(quoted.items)
  {
    ghost var start := quoted.Contents();
    for k := 0 to n
      invariant quoted.Valid() && (quoted.items == old(quoted.items) || fresh(quoted.items))
      invariant quoted.Contents() == start + Repeat('\\', k)
    {
      quoted.Append('\\');
      assert Repeat('\\', k) + ['\\'] == Repeat('\\', k + 1);
    }
  }

  // What is written for one character, and the count of backslashes after it.
  function Step(x: char, n: nat): (r: (string, nat)) {
    (if x == '"' then Repeat('\\', 1 + n) + [x] else [x], if x == '\\' then n + 1 else 0)
  }

  lemma EscapeStep(written: string, arg: string, n: nat)
    requires arg != ""
    ensures var (s, m) := Step(arg[0], n);
            written + Escape(arg, n) == written + s + Escape(arg[1..], m)
  {
    var (s, m) := Step(arg[0], n);
    assert Escape(arg, n) == s + Escape(arg[1..], m);
    hide Escape;
    assert written + (s + Escape(arg[1..], m)) == written + s + Escape(arg[1..], m);
  }

  lemma EscapeEnd(arg: string, n: nat)
    requires arg == ""
    ensures Escape(arg, n) == Repeat('\\', n)
  {
  }

  // The quoted branch: quotes around the argument, backslashes doubled before a quote.
  method QuoteEscaped(arg: string, quoted: Builder)
    requires quoted.Valid()
    modifies quoted, quoted.items
    ensures quoted.Valid() && quoted.Contents() == old(quoted.Contents()) + ['"'] + Escape(arg, 0) + ['"']
    ensures quoted.items == old(quoted.items) || fresh(quoted.items)
  {
    hide Escape, Repeat;
    ghost var full := quoted.Contents() + ['"'] + Escape(arg, 0);
    var backslashes := 0;
    quoted.Append('"');
    assert arg[0..] == arg;
    for j := 0 to |arg|
      invariant quoted.Valid() && (quoted.items == old(quoted.items) || fresh(quoted.items))
      invariant quoted.Contents() + Escape(arg[j..], backslashes) == full
    {
      var x := arg[j];
      ghost var written, n := quoted.Contents(), backslashes;
      EscapeStep(written, arg[j..], n);
      assert arg[j..][1..] == arg[j + 1..];
      if x == '\\' {
        backslashes := backslashes + 1;
      } else {
        if x == '"' {
          AppendBackslashes(quoted, 1 + backslashes);
        }
        backslashes := 0;
      }
      quoted.Append(x);
      assert quoted.Contents() == written + Step(x, n).0;
    }
    EscapeEnd(arg[|arg|..], backslashes);
    AppendBackslashes(quoted, backslashes);
    quoted.Append('"');
  }

  method QuoteOne(arg: string, quoted: Builder)
    requires quoted.Valid()
    modifies quoted, quoted.items
    ensures quoted.Valid() && quoted.Contents() == old(quoted.Contents()) + QuoteArg(arg)
    ensures quoted.items == old(quoted.items) || fresh(quoted.items)
  {
    ghost var start := quoted.Contents();
    if arg != "" && !HasSpecial(arg) {
      quoted.AppendMany(arg);
    } else {
      QuoteEscaped(arg, quoted);
      assert start + ['"'] + Escape(arg, 0) + ['"'] == start + (['"'] + Escape(arg, 0) + ['"']);
    }
  }

  method Quote(cmd: seq<Option<string>>, quoted: Builder)
    requires quoted.Valid()
    modifies quoted, quoted.items
    ensures quoted.Valid() && quoted.Contents() == old(quoted.Contents()) + QuoteAll(Args(cmd))
    ensures quoted.items == old(quoted.items) || fresh(quoted.items)
  {
    hide QuoteArg, QuoteAll, Args;
    ghost var start := quoted.Contents();
    var i := 0;
    QuoteNone(cmd);
    while i < |cmd|
      invariant i <= |cmd| && forall k :: 0 <= k < i ==> cmd[k].Some?
      invariant quoted.Valid() && (quoted.items == old(quoted.items) || fresh(quoted.items))
      invariant quoted.Contents() == start + QuoteAll(Args(cmd[..i]))
    {
      if cmd[i].None? {
        break;
      }
      var arg := cmd[i].value;
      ghost var before := QuoteAll(Args(cmd[..i]));
      ArgsExtend(cmd, i);
      QuoteAllExtend(Args(cmd[..i]), arg);
      if i > 0 {
        quoted.Append(' ');
      }
      QuoteOne(arg, quoted);
      assert quoted.Contents() == start + (before + (if i == 0 then "" else [' ']) + QuoteArg(arg));
      i := i + 1;
    }
    ArgsStop(cmd, i);
  }

  lemma QuoteNone(cmd: seq<Option<string>>)
    ensures QuoteAll(Args(cmd[..0])) == ""
  {
  }

  // The line the program appends to an empty builder parses back to its arguments.
  method QuoteLine(cmd: seq<Option<string>>) returns (quoted: Builder)
    ensures quoted.Valid() && Parse(quoted.Contents()) == Args(cmd)
  {
    quoted := new Builder();
    Quote(cmd, quoted);
    assert quoted.Contents() == QuoteAll(Args(cmd));
    RoundTrip(Args(cmd));
  }
}
