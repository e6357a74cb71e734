/** Single-quoting of the arguments that are sent to a host as one shell command line
    (pkg/provider/awsprovider), and the POSIX.1-2017 shell's reading of them. */
module Shell {
  import opened Optional
  import opened Strings

  function ShellQuote(s: string): string {
    "'" + ReplaceChar(s, '\'', "'\\''") + "'"
  }

  function QuoteAll(args: seq<string>): seq<string> {
    if args == [] then [] else [ShellQuote(args[0])] + QuoteAll(args[1..])
  }

  /** The argument part of the command line that ContainerExec sends. */
  method QuoteArgs(args: seq<string>) returns (ln: string)
    ensures ln == Join(QuoteAll(args), " ")
  {
    var quoted: seq<string> := [];
    for i := 0 to |args|
      invariant quoted + QuoteAll(args[i..]) == QuoteAll(args)
    {
      quoted := quoted + [ShellQuote(args[i])];
      assert args[i..] == [args[i]] + args[i + 1..];
    }
    assert quoted == QuoteAll(args);
    ln := Join(quoted, " ");
  }

  // ---- The reader: XCU sections 2.2.1 (backslash), 2.2.2 (single quotes), 2.3 (tokens) ----

  datatype Place =
    | Between
    | InWord(word: string)
    | InQuote(word: string)
    | Escaped(begun: bool, word: string)

  datatype Move = Go(to: Place) | Emit(word: string) | Stop

  /** Characters that mean something else unquoted: operators, expansions, comments, a line's
      end, double quotes. A line with one of them unquoted is outside this reader. */
  predicate Special(c: char) {
    c == '|' || c == '&' || c == ';' || c == '<' || c == '>' || c == '(' || c == ')' || c == '$' || c == '`'
    || c == '\"' || c == '\n' || c == '*' || c == '?' || c == '[' || c == '#' || c == '~'
  }

  function Step(c: char, at: Place): Move {
    match at
    case InQuote(w) => if c == '\'' then Go(InWord(w)) else Go(InQuote(w + [c]))
    case Escaped(begun, w) =>
      if c != '\n' then Go(InWord(w + [c])) else if begun then Go(InWord(w)) else Go(Between)
    case InWord(w) =>
      if c == '\'' then Go(InQuote(w))
      else if c == '\\' then Go(Escaped(true, w))
      else if Blank(c) then Emit(w)
      else if Special(c) then Stop
      else Go(InWord(w + [c]))
    case Between =>
      if c == '\'' then Go(InQuote(""))
      else if c == '\\' then Go(Escaped(false, ""))
      else if Blank(c) then Go(Between)
      else if Special(c) then Stop
      else Go(InWord([c]))
  }

  /** At the end of the line: nothing may be left open. */
  function Finish(at: Place): Option<seq<string>> {
    match at
    case Between => Some([])
    case InWord(w) => Some([w])
    case InQuote(_) => None
    case Escaped(_, _) => None
  }

  function PrependAll(ws: seq<string>, rest: Option<seq<string>>): Option<seq<string>> {
    if rest.Some? then Some(ws + rest.value) else None
  }

  /** The words of a simple command line; None when a quote is left open or the line holds
      something this reader does not cover. */
  function Words(s: string, at: Place): Option<seq<string>> {
    if s == "" then Finish(at)
    else match Step(s[0], at)
      case Go(next) => Words(s[1..], next)
      case Emit(w) => PrependAll([w], Words(s[1..], Between))
      case Stop => None
  }

  // ---- Reading undoes quoting ----

  /** The text read inside quotes as one quote character, and still inside. */
  ghost predicate ReadsAsQuote(escaped: string) {
    forall w, body :: Words(escaped + body, InQuote(w)) == Words(body, InQuote(w + ['\'']))
  }

  /** The body of a quoted argument and its closing quote, read from inside the quotes. */
  lemma {:induction false} BodyReads(s: string, escaped: string, w: string, rest: string)
    requires ReadsAsQuote(escaped)
    ensures Words(ReplaceChar(s, '\'', escaped) + (['\''] + rest), InQuote(w)) == Words(rest, InWord(w + s))
  {
    var tail := ['\''] + rest;
    if s == "" {
      assert ReplaceChar(s, '\'', escaped) + tail == tail;
      assert tail[1..] == rest;
      assert w + s == w;
    } else {
      var body, next := ReplaceChar(s[1..], '\'', escaped) + tail, w + [s[0]];
      assert w + s == next + s[1..];
      BodyReads(s[1..], escaped, next, rest);
      var c := if s[0] == '\'' then escaped else [s[0]];
      assert ReplaceChar(s, '\'', escaped) + tail == c + body;
      FirstReads(s[0], escaped, w, body);
    }
  }

  lemma FirstReads(c: char, escaped: string, w: string, body: string)
    requires ReadsAsQuote(escaped)
    ensures Words((if c == '\'' then escaped else [c]) + body, InQuote(w)) == Words(body, InQuote(w + [c]))
  {
    if c != '\'' {
      InsideQuotes(c, w, body);
    }
  }

  lemma InsideQuotes(c: char, w: string, body: string)
    requires c != '\''
    ensures Words([c] + body, InQuote(w)) == Words(body, InQuote(w + [c]))
  {
    assert ([c] + body)[1..] == body;
  }

  /** Close, escaped quote, reopen: one quote character, still inside. */
  lemma EscapedQuoteReads(w: string, body: string)
    ensures Words("'\\''" + body, InQuote(w)) == Words(body, InQuote(w + ['\'']))
  {
    var text := "'\\''" + body;
    assert text[0] == '\'' && text[1] == '\\' && text[2] == '\'' && text[3] == '\'';
    assert text[1..][1..] == text[2..] && text[2..][1..] == text[3..] && text[3..][1..] == body;
    var more := w + ['\''];
    assert Words(text, InQuote(w)) == Words(text[1..], InWord(w));
    assert Words(text[1..], InWord(w)) == Words(text[2..], Escaped(true, w));
    assert Words(text[2..], Escaped(true, w)) == Words(text[3..], InWord(more));
    assert Words(text[3..], InWord(more)) == Words(body, InQuote(more));
  }

  lemma ArgumentReads(s: string, rest: string)
    ensures Words(ShellQuote(s) + rest, Between) == Words(rest, InWord(s))
  {
    var text := ShellQuote(s) + rest;
    assert text[0] == '\'';
    var escaped := "'\\''";
    forall w, body
      ensures Words(escaped + body, InQuote(w)) == Words(body, InQuote(w + ['\'']))
    {
      EscapedQuoteReads(w, body);
    }
    assert text[1..] == ReplaceChar(s, '\'', escaped) + (['\''] + rest);
    BodyReads(s, escaped, "", rest);
    assert "" + s == s;
  }

  /** A word ends where the line or a blank ends it. */
  lemma WordEnds(w: string, rest: string)
    requires rest == "" || Blank(rest[0])
    ensures Words(rest, InWord(w)) == PrependAll([w], Words(rest, Between))
  {
    assert [w] + [] == [w];
  }

  lemma NextArgument(s: string, tail: string)
    ensures Words(ShellQuote(s) + (" " + tail), Between) == PrependAll([s], Words(tail, Between))
  {
    var rest := " " + tail;
    assert rest[0] == ' ' && rest[1..] == tail;
    ArgumentReads(s, rest);
    WordEnds(s, rest);
    assert Words(rest, Between) == Words(tail, Between);
  }

  lemma PrependMore(ws: seq<string>, rest: Option<seq<string>>)
    requires ws != []
    ensures PrependAll([ws[0]], PrependAll(ws[1..], rest)) == PrependAll(ws, rest)
  {
    if rest.Some? {
      assert [ws[0]] + (ws[1..] + rest.value) == ws + rest.value;
    }
  }

  lemma LastArgument(s: string, rest: string)
    requires rest == "" || Blank(rest[0])
    ensures Words(ShellQuote(s) + rest, Between) == PrependAll([s], Words(rest, Between))
  {
    ArgumentReads(s, rest);
    WordEnds(s, rest);
  }

  lemma JoinedArguments(args: seq<string>)
    requires |args| > 1
    ensures Join(QuoteAll(args), " ") == ShellQuote(args[0]) + (" " + Join(QuoteAll(args[1..]), " "))
  {
    assert QuoteAll(args)[1..] == QuoteAll(args[1..]);
  }

  /** For every argument list, empty arguments and arguments with quotes included, the shell
      reads back the arguments, and then whatever the line goes on with after a blank. */
  lemma {:induction false} ArgumentsRead(args: seq<string>, rest: string)
    requires args != [] && (rest == "" || Blank(rest[0]))
    ensures Words(Join(QuoteAll(args), " ") + rest, Between)
            == PrependAll(args, Words(rest, Between))
  {
    if |args| == 1 {
      assert QuoteAll(args) == [ShellQuote(args[0])];
      LastArgument(args[0], rest);
      assert args == [args[0]];
    } else {
      var more := Join(QuoteAll(args[1..]), " ");
      JoinedArguments(args);
      assert ShellQuote(args[0]) + (" " + more) + rest == ShellQuote(args[0]) + (" " + (more + rest));
      NextArgument(args[0], more + rest);
      ArgumentsRead(args[1..], rest);
      PrependMore(args, Words(rest, Between));
    }
  }

  lemma ShellRoundTrip(args: seq<string>)
    ensures Words(Join(QuoteAll(args), " "), Between) == Some(args)
  {
    if args != [] {
      ArgumentsRead(args, "");
      assert Join(QuoteAll(args), " ") + "" == Join(QuoteAll(args), " ");
      assert args + [] == args;
    }
  }

  /** Different argument lists never make the same line. */
  lemma QuotingIsInjective(a: seq<string>, b: seq<string>)
    requires Join(QuoteAll(a), " ") == Join(QuoteAll(b), " ")
    ensures a == b
  {
    ShellRoundTrip(a);
    ShellRoundTrip(b);
  }

  /** The command line of one call: the arguments reach the program as given. */
  method ContainerExecWords(args: seq<string>) returns (read: Option<seq<string>>)
    ensures read == Some(args)
  {
    var ln := QuoteArgs(args);
    ShellRoundTrip(args);
    read := Words(ln, Between);
  }
}
