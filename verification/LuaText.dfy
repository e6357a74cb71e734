/** Escaping for the quoted Lua literals of the generated proxy filter
    (pkg/policy/egress.go), and reading such a literal back. */
module LuaText {
  import opened Optional
  import opened Strings

  /** The three replacement passes, in the order they are applied. */
  function LuaEscape(s: string): string {
    ReplaceChar(ReplaceChar(ReplaceChar(s, '\\', "\\\\"), '\"', "\\\""), '\n', "\\n")
  }

  function EscapeChar(c: char): string {
    if c == '\\' then "\\\\"
    else if c == '\"' then "\\\""
    else if c == '\n' then "\\n"
    else [c]
  }

  function EscapeMap(s: string): string {
    if s == [] then "" else EscapeChar(s[0]) + EscapeMap(s[1..])
  }

  /** No pass disturbs what an earlier one produced: the three passes are one character map. */
  lemma {:induction false} PassesAreOneMap(s: string)
    ensures LuaEscape(s) == EscapeMap(s)
  {
    if s != [] {
      var c, rest := s[0], s[1..];
      assert s == [c] + rest;
      var one := ReplaceChar([c], '\\', "\\\\");
      ReplaceCharConcat([c], rest, '\\', "\\\\");
      ReplaceCharConcat(one, ReplaceChar(rest, '\\', "\\\\"), '\"', "\\\"");
      var two := ReplaceChar(one, '\"', "\\\"");
      ReplaceCharConcat(two, ReplaceChar(ReplaceChar(rest, '\\', "\\\\"), '\"', "\\\""), '\n', "\\n");
      OneChar(c);
      PassesAreOneMap(rest);
    }
  }

  lemma OneChar(c: char)
    ensures ReplaceChar(ReplaceChar(ReplaceChar([c], '\\', "\\\\"), '\"', "\\\""), '\n', "\\n") == EscapeChar(c)
  {
    assert [c][1..] == [];
    if c == '\\' {
      assert ReplaceChar([c], '\\', "\\\\") == "\\\\";
      assert "\\\\"[1..] == "\\" && "\\"[1..] == "";
      assert ReplaceChar("\\\\", '\"', "\\\"") == "\\\\";
      assert ReplaceChar("\\\\", '\n', "\\n") == "\\\\";
    } else if c == '\"' {
      assert ReplaceChar([c], '\\', "\\\\") == "\"";
      assert ReplaceChar("\"", '\"', "\\\"") == "\\\"";
      assert "\\\""[1..] == "\"" && "\""[1..] == "";
      assert ReplaceChar("\\\"", '\n', "\\n") == "\\\"";
    }
  }

  /** The contents of a double-quoted literal, read by section 2.1 of the Lua 5.1 Reference
      Manual up to the closing quote. A raw line break, a stray quote or an escape other than
      the three the generator writes makes the literal unreadable here. */
  function ReadBody(t: string): Option<string> {
    if t == [] then None
    else if t == "\"" then Some("")
    else if t[0] == '\"' || t[0] == '\n' || t[0] == '\r' then None
    else if t[0] == '\\' then
      if |t| == 1 then None
      else
        var rest := ReadBody(t[2..]);
        if rest.None? then None
        else if t[1] == '\\' then Some("\\" + rest.value)
        else if t[1] == '\"' then Some("\"" + rest.value)
        else if t[1] == 'n' then Some("\n" + rest.value)
        else None
    else
      var rest := ReadBody(t[1..]);
      if rest.None? then None else Some([t[0]] + rest.value)
  }

  function ReadLiteral(t: string): Option<string> {
    if t != [] && t[0] == '\"' then ReadBody(t[1..]) else None
  }

  function Quoted(s: string): string {
    "\"" + LuaEscape(s) + "\""
  }

  /** Reading the generated literal gives the string back, exactly when the string has no
      carriage return, the one line break the escaping leaves alone. */
  lemma LuaRoundTrip(s: string)
    ensures ReadLiteral(Quoted(s)) == Some(s) <==> '\r' !in s
    ensures '\r' in s ==> ReadLiteral(Quoted(s)) == None
  {
    PassesAreOneMap(s);
    assert Quoted(s)[1..] == EscapeMap(s) + "\"";
    ReadEscaped(s);
  }

  lemma {:induction false} ReadEscaped(s: string)
    ensures ReadBody(EscapeMap(s) + "\"") == if '\r' in s then None else Some(s)
  {
    if s != [] {
      var t := EscapeMap(s) + "\"";
      var rest := EscapeMap(s[1..]) + "\"";
      ReadEscaped(s[1..]);
      assert s == [s[0]] + s[1..];
      assert t == EscapeChar(s[0]) + rest;
      assert |rest| >= 1;
      if |EscapeChar(s[0])| == 2 {
        assert t[2..] == rest;
      } else {
        assert t[1..] == rest;
      }
    }
  }
}
