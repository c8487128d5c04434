// Examples of quoting, and of Microsoft's rules from "Parsing C command-line arguments".
module QuoteVectors {
  import opened WinQuote

  // ----- what is printed -----

  lemma EscapeStep(c: char, rest: string, n: nat)
    ensures Escape([c] + rest, n) ==
            if c == '\\' then [c] + Escape(rest, n + 1)
            else if c == '"' then Repeat('\\', 1 + n) + [c] + Escape(rest, 0)
            else [c] + Escape(rest, 0)
  {
    assert ([c] + rest)[1..] == rest;
  }

  lemma NothingLeft(n: nat)
    ensures Escape("", n) == Repeat('\\', n)
  {
  }

  // A blank in it.
  lemma BlankExample()
    ensures QuoteArg("a b") == "\"a b\""
  {
    hide Escape, HasSpecial;
    SpecialAt("a b", 1);
    NothingLeft(0);
    EscapeStep('a', " b", 0);
    EscapeStep(' ', "b", 0);
    EscapeStep('b', "", 0);
    assert "a b" == ['a'] + " b" && " b" == [' '] + "b" && "b" == ['b'] + "";
  }

  // A double quote after a backslash, and a backslash at the end: each backslash twice, and one more for the quote.
  lemma BackslashExample()
    ensures QuoteArg("a\\\"b\\") == "\"a\\\\\\\"b\\\\\""
  {
    hide Escape, HasSpecial;
    SpecialAt("a\\\"b\\", 2);
    NothingLeft(1);
    EscapeStep('a', "\\\"b\\", 0);
    EscapeStep('\\', "\"b\\", 0);
    EscapeStep('"', "b\\", 1);
    EscapeStep('b', "\\", 0);
    EscapeStep('\\', "", 0);
    assert "a\\\"b\\" == ['a'] + "\\\"b\\" && "\\\"b\\" == ['\\'] + "\"b\\" && "\"b\\" == ['"'] + "b\\";
    assert "b\\" == ['b'] + "\\" && "\\" == ['\\'] + "";
    assert Repeat('\\', 2) == "\\\\" && Repeat('\\', 1) == "\\";
  }

  // Nothing special, and nothing at all.
  lemma PlainExample()
    ensures QuoteArg("c:\\d") == "c:\\d" && QuoteArg("") == "\"\""
  {
    var s := "c:\\d";
    assert forall i :: 0 <= i < |s| ==> !IsSpecial(s[i]);
  }

  lemma SpecialAt(s: string, i: nat)
    requires i < |s| && IsSpecial(s[i])
    ensures HasSpecial(s)
  {
  }

  // ----- what is read -----

  lemma ScanStep(c: char, rest: string, quoted: bool)
    requires c != '\\'
    ensures Scan([c] + rest, quoted) ==
            if c == '"' then
              if quoted && rest != "" && rest[0] == '"' then
                var r := Scan(rest[1..], true); (['"'] + r.0, r.1)
              else Scan(rest, !quoted)
            else if !quoted && IsBlank(c) then ("", [c] + rest)
            else var r := Scan(rest, quoted); ([c] + r.0, r.1)
  {
    var s := [c] + rest;
    assert Run(s) == 0;
    assert s[1..] == rest && s[..1] == [c] && s[..0] == "" && s[0..] == s;
    assert rest != "" ==> s[2..] == rest[1..];
    var none := Repeat('\\', 0);
    assert none == "" && none + ['"'] == ['"'];
    assert none + Scan(rest, !quoted).0 == Scan(rest, !quoted).0;
  }

  lemma EndOfLine()
    ensures Scan("", true) == ("", "")
  {
  }

  lemma OneArgument(s: string, arg: string)
    requires s != "" && !IsBlank(s[0]) && Scan(s, false) == (arg, "")
    ensures Parse(s) == [arg]
  {
    hide Scan;
    assert SkipBlanks(s) == s;
    assert Parse("") == [];
  }

  // a"b"" c d is one argument: ab" c d
  lemma TwoQuotesExample()
    ensures Parse("a\"b\"\" c d") == ["ab\" c d"]
  {
    hide Scan, Parse;
    ScanStep('a', "\"b\"\" c d", false);
    ScanStep('"', "b\"\" c d", false);
    ScanStep('b', "\"\" c d", true);
    ScanStep('"', "\" c d", true);
    ScanStep(' ', "c d", true);
    ScanStep('c', " d", true);
    ScanStep(' ', "d", true);
    ScanStep('d', "", true);
    EndOfLine();
    assert "a\"b\"\" c d" == ['a'] + "\"b\"\" c d" && "\"b\"\" c d" == ['"'] + "b\"\" c d";
    assert "b\"\" c d" == ['b'] + "\"\" c d" && "\"\" c d" == ['"'] + "\" c d" && "\" c d"[1..] == " c d";
    assert " c d" == [' '] + "c d" && "c d" == ['c'] + " d" && " d" == [' '] + "d" && "d" == ['d'] + "";
    var r := Scan(" c d", true);
    assert r.0 == " c d" && r.1 == "";
    assert ['a'] + (['b'] + (['"'] + " c d")) == "ab\" c d";
    OneArgument("a\"b\"\" c d", "ab\" c d");
  }
}
