/** The reserved-key check on the $include layers, twice: the Go validator
    (pkg/common/custom_config.go) and the shell guard generated from the same key list
    (pkg/provider/managedhost/guard.go), read as jq, sh and grep -Ex read it. */
module Guard {
  import opened Optional
  import opened Strings

  const RESERVED: seq<string> := ["$include", "channels", "gateway", "plugins"]

  /** What the generated script and both checks ask of the list of reserved keys: the pattern
      stands between apostrophes as an argument of grep. Everything below is proved for every list
      of this shape, so it stays true when the list grows within it. */
  ghost predicate Shape(reserved: seq<string>) {
    && reserved != []
    && NoDuplicates(reserved)
    && forall k :: k in reserved ==> GoodName(k)
  }

  predicate GoodName(k: string) {
    k != "" && '\n' !in k && '\'' !in k && !IsDigit(k[0]) && k[0] != '-' && Quotable(k)
  }

  lemma ReservedHasShape()
    ensures Shape(RESERVED)
  {
    assert RESERVED[0][0] == '$' && RESERVED[1][0] == 'c' && RESERVED[2][0] == 'g' && RESERVED[3][0] == 'p';
    assert GoodName("$include");
    assert GoodName("channels");
    assert GoodName("gateway");
    assert GoodName("plugins");
  }

  /** A layer file. An object's keys are listed once each. */
  datatype Layer =
    | Absent
    | Blank
    | Object(keys: seq<string>)
    | Array(length: nat)
    | Null
    | Scalar
    | NotStrict

  datatype Verdict = Fine | Unparseable | Declares(found: seq<string>)

  // ---- The validator ----

  method ValidateKeys(reserved: seq<string>, l: Layer) returns (v: Verdict)
    requires l != Absent && Shape(reserved)
    ensures v.Unparseable? <==> l.Array? || l.Scalar? || l.NotStrict?
    ensures v.Declares? <==> l.Object? && exists k :: k in l.keys && k in reserved
    ensures v.Declares? ==> StrictlySorted(v.found) && forall k :: k in v.found <==> k in l.keys && k in reserved
  {
    match l
    case Blank => return Fine;
    case Array(_) => return Unparseable;
    case Scalar => return Unparseable;
    case NotStrict => return Unparseable;
    case Null => return Fine;
    case Object(keys) =>
      var found: seq<string> := [];
      for i := 0 to |reserved|
        invariant forall k :: k in found <==> k in keys && k in reserved[..i]
        invariant NoDuplicates(found)
      {
        assert reserved[..i + 1] == reserved[..i] + [reserved[i]];
        if reserved[i] in keys {
          found := found + [reserved[i]];
        }
      }
      assert reserved[..|reserved|] == reserved;
      if |found| > 0 {
        SortDistinct(found);
        assert forall k :: k in Sort(found) <==> k in Elements(Sort(found));
        assert forall k :: k in found <==> k in Elements(found);
        assert found[0] in found;
        return Declares(Sort(found));
      }
      assert forall k :: k in keys && k in reserved ==> k in found;
      v := Fine;
  }

  /** What the validator calls a hard error. */
  predicate HardError(reserved: seq<string>, l: Layer) {
    l.Object? && exists k :: k in l.keys && k in reserved
  }

  datatype Classified = NoFinding | Warning | Violation(found: seq<string>)

  /** ClassifyIncludeValidation. */
  method Classify(reserved: seq<string>, l: Layer) returns (c: Classified)
    requires l != Absent && Shape(reserved)
    ensures c.Violation? <==> HardError(reserved, l)
    ensures c.Warning? <==> l.Array? || l.Scalar? || l.NotStrict?
  {
    var v := ValidateKeys(reserved, l);
    match v
    case Fine => return NoFinding;
    case Unparseable => return Warning;
    case Declares(found) => return Violation(found);
  }

  /** ValidateManagedConfigSources: the pre-deploy check, over the fleet's and the agent's file.
      It names the first offender. */
  method ValidateSources(reserved: seq<string>, layers: seq<Layer>) returns (offender: nat)
    requires Shape(reserved)
    ensures offender <= |layers|
    ensures forall i :: 0 <= i < offender ==> !HardError(reserved, layers[i])
    ensures offender < |layers| ==> HardError(reserved, layers[offender])
  {
    for i := 0 to |layers|
      invariant forall j :: 0 <= j < i ==> !HardError(reserved, layers[j])
    {
      if layers[i] == Absent {
        continue;
      }
      var v := ValidateKeys(reserved, layers[i]);
      if v.Declares? {
        return i;
      }
    }
    offender := |layers|;
  }

  // ---- The generated pattern ----

  function QuoteChar(c: char): string {
    if c == '$' || c == '.' then ['\\', c] else [c]
  }

  function QuoteKey(k: string): string {
    if k == "" then "" else QuoteChar(k[0]) + QuoteKey(k[1..])
  }

  function Quoted(ks: seq<string>): seq<string> {
    seq(|ks|, i requires 0 <= i < |ks| => QuoteKey(ks[i]))
  }

  function Pattern(ks: seq<string>): string {
    Join(Quoted(ks), "|")
  }

  method BuildPattern(ks: seq<string>) returns (pattern: string)
    ensures pattern == Pattern(ks)
  {
    var quoted: seq<string> := [];
    for i := 0 to |ks|
      invariant |quoted| == i && forall j :: 0 <= j < i ==> quoted[j] == QuoteKey(ks[j])
    {
      quoted := quoted + [QuoteKey(ks[i])];
    }
    assert quoted == Quoted(ks);
    pattern := Join(quoted, "|");
  }

  // ---- How grep -Ex reads a pattern: the fragment without groups, brackets and repetition ----

  datatype Tok = Lit(c: char) | Any | End

  /** The characters special in an extended regular expression, outside brackets. */
  predicate Meta(c: char) {
    c == '.' || c == '[' || c == '\\' || c == '(' || c == ')' || c == '*' || c == '+' || c == '?' || c == '{' || c == '|'
    || c == '^' || c == '$'
  }

  function Push(t: Tok, rest: Option<seq<seq<Tok>>>): Option<seq<seq<Tok>>> {
    if rest.Some? && rest.value != [] then Some([[t] + rest.value[0]] + rest.value[1..]) else None
  }

  /** The alternatives of a pattern; None outside the fragment. */
  function Alternatives(s: string): Option<seq<seq<Tok>>> {
    if s == "" then Some([[]])
    else if s[0] == '|' then
      var rest := Alternatives(s[1..]);
      if rest.Some? then Some([[]] + rest.value) else None
    else if s[0] == '\\' then
      if |s| >= 2 && Meta(s[1]) then Push(Lit(s[1]), Alternatives(s[2..])) else None
    else if s[0] == '.' then Push(Any, Alternatives(s[1..]))
    else if s[0] == '$' then Push(End, Alternatives(s[1..]))
    else if Meta(s[0]) then None
    else Push(Lit(s[0]), Alternatives(s[1..]))
  }

  /** One alternative against a whole line. */
  predicate MatchesLine(ts: seq<Tok>, ln: string) {
    if ts == [] then ln == ""
    else match ts[0]
      case Lit(c) => ln != "" && ln[0] == c && MatchesLine(ts[1..], ln[1..])
      case Any => ln != "" && MatchesLine(ts[1..], ln[1..])
      case End => ln == "" && MatchesLine(ts[1..], ln)
  }

  predicate GrepLine(pattern: string, ln: string) {
    var alts := Alternatives(pattern);
    alts.Some? && exists i :: 0 <= i < |alts.value| && MatchesLine(alts.value[i], ln)
  }

  // ---- The pattern reads back as the key list ----

  /** The generator quotes two of the metacharacters; keys may hold no others. */
  predicate Quotable(k: string) {
    forall i :: 0 <= i < |k| ==> k[i] == '$' || k[i] == '.' || !Meta(k[i])
  }

  function Literal(k: string): seq<Tok> {
    if k == "" then [] else [Lit(k[0])] + Literal(k[1..])
  }

  function Literals(ks: seq<string>): seq<seq<Tok>> {
    seq(|ks|, i requires 0 <= i < |ks| => Literal(ks[i]))
  }

  lemma {:induction false} LiteralMatches(k: string, ln: string)
    ensures MatchesLine(Literal(k), ln) <==> ln == k
  {
    if k != "" && ln != "" {
      LiteralMatches(k[1..], ln[1..]);
      assert k == [k[0]] + k[1..] && ln == [ln[0]] + ln[1..];
    }
  }

  lemma {:induction false} QuotedKeyReads(k: string, rest: string)
    requires Quotable(k)
    requires var r := Alternatives(rest); r.Some? && r.value != []
    ensures var r := Alternatives(rest).value;
            Alternatives(QuoteKey(k) + rest) == Some([Literal(k) + r[0]] + r[1..])
  {
    var r := Alternatives(rest).value;
    if k == "" {
      assert QuoteKey(k) + rest == rest;
      assert Literal(k) + r[0] == r[0];
      assert [r[0]] + r[1..] == r;
    } else {
      QuotedKeyReads(k[1..], rest);
      var s := QuoteKey(k) + rest;
      var t := QuoteKey(k[1..]) + rest;
      assert s == QuoteChar(k[0]) + t;
      assert Meta(k[0]) || (k[0] != '$' && k[0] != '.' && k[0] != '|' && k[0] != '\\');
      if k[0] == '$' || k[0] == '.' {
        assert s[0] == '\\' && s[1] == k[0] && s[2..] == t;
      } else {
        assert s[0] == k[0] && s[1..] == t;
      }
      assert [Lit(k[0])] + (Literal(k[1..]) + r[0]) == Literal(k) + r[0];
    }
  }

  /** The last key, with nothing after it. */
  lemma LastKeyReads(k: string)
    requires Quotable(k)
    ensures Alternatives(QuoteKey(k)) == Some([Literal(k)])
  {
    var none: seq<Tok> := [];
    var r := [none];
    assert Alternatives("") == Some(r);
    QuotedKeyReads(k, "");
    assert QuoteKey(k) + "" == QuoteKey(k);
    assert [Literal(k) + none] + r[1..] == [Literal(k)];
  }

  /** A key and the bar after it. */
  lemma FirstKeyReads(k: string, tail: string)
    requires Quotable(k) && Alternatives(tail).Some?
    ensures Alternatives(QuoteKey(k) + ("|" + tail)) == Some([Literal(k)] + Alternatives(tail).value)
  {
    var none: seq<Tok> := [];
    var rest := "|" + tail;
    assert rest[0] == '|' && rest[1..] == tail;
    assert Alternatives(rest) == Some([none] + Alternatives(tail).value);
    QuotedKeyReads(k, rest);
    assert Literal(k) + none == Literal(k);
  }

  lemma {:induction false} PatternReads(ks: seq<string>)
    requires ks != [] && forall k :: k in ks ==> Quotable(k)
    ensures Alternatives(Pattern(ks)) == Some(Literals(ks))
  {
    if |ks| == 1 {
      LastKeyReads(ks[0]);
      assert Quoted(ks) == [QuoteKey(ks[0])];
      assert Literals(ks) == [Literal(ks[0])];
    } else {
      PatternReads(ks[1..]);
      var tail := Pattern(ks[1..]);
      FirstKeyReads(ks[0], tail);
      assert Quoted(ks)[1..] == Quoted(ks[1..]);
      assert QuoteKey(ks[0]) + "|" + tail == QuoteKey(ks[0]) + ("|" + tail);
      assert Literals(ks) == [Literal(ks[0])] + Literals(ks[1..]);
    }
  }

  /** A line matches the generated pattern if and only if it is one of the keys. */
  lemma PatternAcceptsExactly(ks: seq<string>, ln: string)
    requires ks != [] && forall k :: k in ks ==> Quotable(k)
    ensures GrepLine(Pattern(ks), ln) <==> ln in ks
  {
    PatternReads(ks);
    forall i | 0 <= i < |ks|
      ensures MatchesLine(Literals(ks)[i], ln) <==> ln == ks[i]
    {
      LiteralMatches(ks[i], ln);
    }
  }

  /** Without the quoting, a key like $include would never be seen. */
  lemma UnquotedMissesDollar(k: string)
    requires forall i :: 0 <= i < |k| ==> !Meta(k[i])
    ensures !GrepLine("$" + k, "$" + k)
  {
    PlainUnchanged(k);
    LastKeyReads(k);
    assert ("$" + k)[1..] == k;
    assert Alternatives("$" + k) == Push(End, Some([Literal(k)]));
  }

  lemma {:induction false} PlainUnchanged(k: string)
    requires forall i :: 0 <= i < |k| ==> !Meta(k[i])
    ensures QuoteKey(k) == k
  {
    if k != "" {
      PlainUnchanged(k[1..]);
      assert k == [k[0]] + k[1..];
    }
  }

  // ---- What reaches grep ----

  /** Command substitution drops the newlines at the end. */
  function Chomp(s: string): string {
    if s != "" && s[|s| - 1] == '\n' then Chomp(s[..|s| - 1]) else s
  }

  /** The output of jq -r 'keys[]' on a present file; None where it fails. On an array, keys are indices. */
  function JqKeys(l: Layer): Option<string> {
    match l
    case Blank => Some("")
    case Object(keys) => Some(Printed(keys))
    case Array(n) => Some(Printed(seq(n, i requires 0 <= i < n => Decimal(i))))
    case _ => None
  }

  datatype Start = Allowed | Refused

  /** The script's test of one layer. */
  method LayerRefused(reserved: seq<string>, l: Layer, pattern: string) returns (refused: bool)
    requires Shape(reserved) && pattern == Pattern(reserved)
    ensures refused <==> SomeLineReserved(reserved, l)
  {
    if l == Absent || JqKeys(l).None? {
      return false;
    }
    var lines := Lines(Chomp(JqKeys(l).value));
    refused := false;
    for i := 0 to |lines|
      invariant refused <==> exists k :: 0 <= k < i && lines[k] in reserved
    {
      PatternAcceptsExactly(reserved, lines[i]);
      if GrepLine(pattern, lines[i]) {
        refused := true;
      }
    }
    LinesSeen(reserved, l);
  }

  /** The script, layer by layer. */
  method GuardScript(reserved: seq<string>, layers: seq<Layer>) returns (s: Start)
    requires Shape(reserved)
    ensures s.Refused? <==> exists i :: 0 <= i < |layers| && SomeLineReserved(reserved, layers[i])
  {
    var pattern := BuildPattern(reserved);
    for i := 0 to |layers|
      invariant forall j :: 0 <= j < i ==> !SomeLineReserved(reserved, layers[j])
    {
      var refused := LayerRefused(reserved, layers[i], pattern);
      if refused {
        return Refused;
      }
    }
    s := Allowed;
  }

  /** What makes the guard refuse: one line of one key is a reserved name. */
  ghost predicate SomeLineReserved(reserved: seq<string>, l: Layer) {
    l.Object? && exists k, r :: k in l.keys && r in reserved && r in Lines(k)
  }

  lemma {:induction false} PrintedLines(keys: seq<string>, r: string)
    requires r != ""
    ensures r in Lines(Printed(keys)) <==> exists k :: k in keys && r in Lines(k)
  {
    if keys != [] {
      PrintedLines(keys[1..], r);
      LinesConcat(keys[0], Printed(keys[1..]));
      assert keys == [keys[0]] + keys[1..];
    }
  }

  lemma {:induction false} ChompedLines(s: string, r: string)
    requires r != ""
    ensures r in Lines(Chomp(s)) <==> r in Lines(s)
  {
    if s != "" && s[|s| - 1] == '\n' {
      var init := s[..|s| - 1];
      ChompedLines(init, r);
      LinesConcat(init, "");
      assert init + "\n" + "" == s;
    }
  }

  lemma DecimalLine(n: nat)
    ensures Decimal(n) != "" && IsDigit(Decimal(n)[0]) && forall c :: c in Decimal(n) ==> IsDigit(c)
  {
  }

  /** The lines grep sees hold a reserved name if and only if some line of some key is one. */
  lemma LinesSeen(reserved: seq<string>, l: Layer)
    requires l != Absent && JqKeys(l).Some? && Shape(reserved)
    ensures (exists r :: r in reserved && r in Lines(Chomp(JqKeys(l).value))) <==> SomeLineReserved(reserved, l)
  {
    forall r | r in reserved
      ensures r in Lines(Chomp(JqKeys(l).value)) <==> l.Object? && exists k :: k in l.keys && r in Lines(k)
    {
      ChompedLines(JqKeys(l).value, r);
      match l
      case Blank =>
      case Object(keys) => PrintedLines(keys, r);
      case Array(n) =>
        var ks := seq(n, i requires 0 <= i < n => Decimal(i));
        PrintedLines(ks, r);
        forall k | k in ks
          ensures r !in Lines(k)
        {
          var i :| 0 <= i < n && ks[i] == k;
          DecimalLine(i);
          LinesOfLine(k);
        }
    }
  }

  // ---- The two agree ----

  predicate NewlineFree(l: Layer) {
    l.Object? ==> forall k :: k in l.keys ==> '\n' !in k
  }

  lemma LineIsKey(reserved: seq<string>, l: Layer)
    requires Shape(reserved)
    ensures HardError(reserved, l) ==> SomeLineReserved(reserved, l)
    ensures NewlineFree(l) && SomeLineReserved(reserved, l) ==> HardError(reserved, l)
  {
    if HardError(reserved, l) {
      var k :| k in l.keys && k in reserved;
      LinesOfLine(k);
      assert k in Lines(k);
    }
    if NewlineFree(l) && SomeLineReserved(reserved, l) {
      var k, r :| k in l.keys && r in reserved && r in Lines(k);
      LinesOfLine(k);
      assert k in l.keys && k in reserved;
    }
  }

  /** Whatever the validator calls a violation the guard stops, and on newline-free keys it
      stops nothing else. */
  method Agree(reserved: seq<string>, layers: seq<Layer>) returns (offender: nat, s: Start)
    requires Shape(reserved)
    ensures offender <= |layers| && (offender < |layers| <==> exists i :: 0 <= i < |layers| && HardError(reserved, layers[i]))
    ensures s.Refused? <==> exists i :: 0 <= i < |layers| && SomeLineReserved(reserved, layers[i])
    ensures offender < |layers| ==> HardError(reserved, layers[offender]) && s.Refused?
    ensures (forall i :: 0 <= i < |layers| ==> NewlineFree(layers[i])) ==> (s.Refused? <==> offender < |layers|)
  {
    offender := ValidateSources(reserved, layers);
    s := GuardScript(reserved, layers);
    forall i | 0 <= i < |layers|
      ensures HardError(reserved, layers[i]) ==> SomeLineReserved(reserved, layers[i])
      ensures NewlineFree(layers[i]) && SomeLineReserved(reserved, layers[i]) ==> HardError(reserved, layers[i])
    {
      LineIsKey(reserved, layers[i]);
    }
  }

  /** The same for the list the repository reserves. */
  method AgreeOnReserved(layers: seq<Layer>) returns (offender: nat, s: Start)
    ensures offender <= |layers| && (offender < |layers| <==> exists i :: 0 <= i < |layers| && HardError(RESERVED, layers[i]))
    ensures s.Refused? <==> exists i :: 0 <= i < |layers| && SomeLineReserved(RESERVED, layers[i])
    ensures offender < |layers| ==> s.Refused?
    ensures (forall i :: 0 <= i < |layers| ==> NewlineFree(layers[i])) ==> (s.Refused? <==> offender < |layers|)
  {
    ReservedHasShape();
    offender, s := Agree(RESERVED, layers);
  }

  /** They agree on a layer exactly when no key that spans lines carries a reserved one
      without a reserved key beside it. */
  lemma AgreeIff(reserved: seq<string>, l: Layer)
    requires Shape(reserved)
    ensures (SomeLineReserved(reserved, l) <==> HardError(reserved, l))
            <==> !(l.Object? && (forall k :: k in l.keys ==> k !in reserved)
                   && exists k, r :: k in l.keys && '\n' in k && r in reserved && r in Lines(k))
  {
    LineIsKey(reserved, l);
    if SomeLineReserved(reserved, l) && !HardError(reserved, l) {
      var k, r :| k in l.keys && r in reserved && r in Lines(k);
      if '\n' !in k {
        LinesOfLine(k);
      }
    }
  }

  /** For any text before and any reserved name, the key "text, newline, name" is refused at
      start and passes the validator. */
  lemma TwoLineKey(reserved: seq<string>, text: string, r: string)
    requires Shape(reserved) && r in reserved
    ensures var l := Object([text + "\n" + r]);
            SomeLineReserved(reserved, l) && !HardError(reserved, l)
  {
    var k := text + "\n" + r;
    LinesConcat(text, r);
    LinesOfLine(r);
    assert r in Lines(k);
    assert k[|text|] == '\n';
    assert k !in reserved;
    assert [k][0] == k;
  }
}
