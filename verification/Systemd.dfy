/** The docker argv of an agent container, its rendering as a systemd ExecStart value
    (pkg/provider/managedhost/container.go), and systemd's splitting of that value. */
module Systemd {
  import opened Optional
  import opened Strings

  predicate QuoteMark(c: char) { c == '\"' || c == '\'' }

  /** Characters that do not reach the program as they stand: escapes, specifiers, variables,
      and the ends of the line. */
  predicate Bad(c: char) {
    c == '\\' || c == '%' || c == '$' || c == '\n' || c == '\r' || c == '\0'
  }

  predicate HasBlank(e: string) {
    exists i :: 0 <= i < |e| && Blank(e[i])
  }

  predicate HasBad(e: string) {
    exists i :: 0 <= i < |e| && Bad(e[i])
  }

  predicate HasQuote(e: string) {
    exists i :: 0 <= i < |e| && QuoteMark(e[i])
  }

  // ---- Rendering ----

  function Rendered(e: string): string {
    if HasBlank(e) then ['\"'] + e + ['\"'] else e
  }

  function RenderedAll(argv: seq<string>): seq<string> {
    if argv == [] then [] else [Rendered(argv[0])] + RenderedAll(argv[1..])
  }

  method SystemdExecStart(argv: seq<string>) returns (value: string)
    ensures value == Join(RenderedAll(argv), " ")
  {
    var parts := new string[|argv|];
    for i := 0 to |argv|
      invariant parts[..i] + RenderedAll(argv[i..]) == RenderedAll(argv)
    {
      parts[i] := Rendered(argv[i]);
      assert argv[i..] == [argv[i]] + argv[i + 1..];
      assert parts[..i + 1] == parts[..i] + [parts[i]];
    }
    assert argv[|argv|..] == [];
    assert parts[..] == parts[..|argv|] == RenderedAll(argv);
    value := Join(parts[..], " ");
  }

  // ---- systemd.syntax(7), "Quoting", and the command separator of systemd.service(5) ----

  function QuoteEnd(s: string, q: char): (n: nat)
    ensures n <= |s| && q !in s[..n] && (n < |s| ==> s[n] == q)
  {
    if s == "" || s[0] == q then 0
    else
      var n := QuoteEnd(s[1..], q) + 1;
      assert s[..n] == [s[0]] + s[1..][..n - 1];
      n
  }

  function WordEnd(s: string): (n: nat)
    ensures n <= |s| && !HasBlank(s[..n]) && (n < |s| ==> Blank(s[n]))
    ensures s != "" && !Blank(s[0]) ==> n > 0
  {
    if s == "" || Blank(s[0]) then 0
    else
      var n := WordEnd(s[1..]) + 1;
      assert s[..n] == [s[0]] + s[1..][..n - 1];
      n
  }

  function Prepend(w: string, rest: Option<seq<string>>): Option<seq<string>> {
    if rest.Some? then Some([w] + rest.value) else None
  }

  /** A quote opens only at the start of an item and its closing quote ends the item. None when
      that is violated, or when the items depend on more than the text. */
  function Split(s: string): Option<seq<string>>
    decreases |s|
  {
    if s == "" then Some([])
    else if Blank(s[0]) then Split(s[1..])
    else if QuoteMark(s[0]) then
      var n := QuoteEnd(s[1..], s[0]);
      if n == |s| - 1 || HasBad(s[1..][..n]) || (n + 2 < |s| && !Blank(s[n + 2])) then None
      else Prepend(s[1..][..n], Split(s[n + 2..]))
    else
      var n := WordEnd(s);
      if HasBad(s[..n]) || HasQuote(s[..n]) || s[..n] == ";" then None
      else Prepend(s[..n], Split(s[n..]))
  }

  // ---- Which elements survive ----

  predicate Good(e: string) {
    && !HasBad(e)
    && if HasBlank(e) then '\"' !in e else e != "" && e != ";" && !HasQuote(e)
  }

  lemma {:induction false} QuoteEndAt(a: string, rest: string, q: char)
    requires q !in a
    ensures QuoteEnd(a + [q] + rest, q) == |a|
  {
    if a != "" {
      assert a[0] in a;
      assert (a + [q] + rest)[1..] == a[1..] + [q] + rest;
      QuoteEndAt(a[1..], rest, q);
    }
  }

  lemma {:induction false} WordEndAt(a: string, rest: string)
    requires !HasBlank(a) && (rest == "" || Blank(rest[0]))
    ensures WordEnd(a + rest) == |a|
  {
    if a == "" {
      assert a + rest == rest;
    } else {
      assert !Blank(a[0]);
      assert (a + rest)[1..] == a[1..] + rest;
      WordEndAt(a[1..], rest);
    }
  }

  lemma GoodElementSplits(e: string, rest: string)
    requires Good(e) && (rest == "" || Blank(rest[0]))
    ensures Split(Rendered(e) + rest) == Prepend(e, Split(rest))
  {
    var s := Rendered(e) + rest;
    if HasBlank(e) {
      QuoteEndAt(e, rest, '\"');
      assert s[1..] == e + ['\"'] + rest;
      assert s[1..][..|e|] == e;
      assert s[|e| + 2..] == rest;
    } else {
      WordEndAt(e, rest);
      assert s[..|e|] == e && s[|e|..] == rest;
      assert !Blank(e[0]) && !QuoteMark(e[0]);
    }
  }

  /** An element that comes back as the first item must have been a good one, or empty. */
  lemma SurvivorIsGood(e: string, rest: string)
    requires e != "" && (rest == "" || Blank(rest[0]))
    requires var r := Split(Rendered(e) + rest); r.Some? && r.value != [] && r.value[0] == e
    ensures Good(e)
  {
    var s := Rendered(e) + rest;
    if HasBlank(e) {
      assert s[0] == '\"' && s[1..] == e + ['\"'] + rest;
    } else {
      WordEndAt(e, rest);
      assert s[..|e|] == e;
      assert s[0] == e[0] && !Blank(e[0]);
      assert e[0] in e;
    }
  }

  // ---- Counting characters other than quotes ----

  function Plain(s: string): nat {
    if s == "" then 0 else (if QuoteMark(s[0]) then 0 else 1) + Plain(s[1..])
  }

  function PlainAll(ws: seq<string>): nat {
    if ws == [] then 0 else Plain(ws[0]) + PlainAll(ws[1..])
  }

  lemma {:induction false} PlainConcat(a: string, b: string)
    ensures Plain(a + b) == Plain(a) + Plain(b)
  {
    if a == "" {
      assert a + b == b;
    } else {
      assert (a + b)[1..] == a[1..] + b;
      PlainConcat(a[1..], b);
    }
  }

  function Gaps(ws: seq<string>): nat {
    if ws == [] then 0 else |ws| - 1
  }

  /** A text that splits into some items holds at least their characters, a blank between any
      two, and the blank it may start with. */
  lemma {:induction false} SplitCounts(s: string)
    requires Split(s).Some?
    ensures var ws := Split(s).value;
            && Plain(s) >= PlainAll(ws) + Gaps(ws)
            && (s != "" && Blank(s[0]) ==> Plain(s) >= PlainAll(ws) + Gaps(ws) + 1)
            && (ws != [] ==> s != "")
    decreases |s|
  {
    if s == "" {
    } else if Blank(s[0]) {
      SplitCounts(s[1..]);
    } else {
      var k := if QuoteMark(s[0]) then QuoteEnd(s[1..], s[0]) + 2 else WordEnd(s);
      var w := if QuoteMark(s[0]) then s[1..][..k - 2] else s[..k];
      SplitCounts(s[k..]);
      PlainConcat(s[..k], s[k..]);
      assert s == s[..k] + s[k..];
      if QuoteMark(s[0]) {
        assert s[..k] == [s[0]] + w + [s[0]];
        PlainConcat([s[0]] + w, [s[0]]);
        PlainConcat([s[0]], w);
        assert Plain([s[0]]) == 0;
      }
      var more := Split(s[k..]).value;
      assert Split(s).value == [w] + more;
      assert ([w] + more)[1..] == more;
      assert more != [] ==> k < |s| && Blank(s[k..][0]);
    }
  }

  lemma {:induction false} RenderedCounts(argv: seq<string>)
    ensures Plain(Join(RenderedAll(argv), " ")) == PlainAll(argv) + Gaps(argv)
  {
    if argv != [] {
      var e := argv[0];
      PlainConcat(['\"'] + e, ['\"']);
      PlainConcat(['\"'], e);
      assert Plain(['\"']) == 0;
      assert Plain(Rendered(e)) == Plain(e);
      RenderedCounts(argv[1..]);
      JoinUnfolds(argv);
      if |argv| > 1 {
        var tail := Join(RenderedAll(argv[1..]), " ");
        PlainConcat(Rendered(e), " " + tail);
        PlainConcat(" ", tail);
        assert Plain(" ") == 1;
      }
    }
  }

  lemma JoinUnfolds(argv: seq<string>)
    requires argv != []
    ensures Join(RenderedAll(argv), " ")
            == if |argv| == 1 then Rendered(argv[0]) else Rendered(argv[0]) + (" " + Join(RenderedAll(argv[1..]), " "))
  {
    JoinSplits(Rendered(argv[0]), RenderedAll(argv[1..]));
  }

  lemma JoinSplits(first: string, more: seq<string>)
    ensures Join([first] + more, " ") == if more == [] then first else first + (" " + Join(more, " "))
  {
    var parts := [first] + more;
    if more != [] {
      assert parts[1..] == more;
      assert first + " " + Join(more, " ") == first + (" " + Join(more, " "));
    }
  }

  // ---- Splitting undoes rendering, exactly for good elements ----

  ghost predicate AllGood(argv: seq<string>) {
    forall e :: e in argv ==> Good(e)
  }

  lemma {:induction false} SplitsBackIff(argv: seq<string>)
    ensures Split(Join(RenderedAll(argv), " ")) == Some(argv) <==> AllGood(argv)
  {
    if argv != [] {
      var e, text := argv[0], Join(RenderedAll(argv), " ");
      var rest := if |argv| == 1 then "" else " " + Join(RenderedAll(argv[1..]), " ");
      JoinUnfolds(argv);
      assert text == Rendered(e) + rest;
      SplitsBackIff(argv[1..]);
      RestSplits(argv);
      assert argv == [e] + argv[1..];
      if Split(text) == Some(argv) {
        if e == "" {
          EmptyIsLost(argv);
          assert false;
        } else {
          SurvivorIsGood(e, rest);
          GoodElementSplits(e, rest);
          assert Split(rest).value == ([e] + Split(rest).value)[1..];
        }
      }
      if AllGood(argv) {
        assert e in argv;
        assert forall x :: x in argv[1..] ==> x in argv;
        GoodElementSplits(e, rest);
      }
    }
  }

  lemma RestSplits(argv: seq<string>)
    requires argv != []
    ensures var tail := Join(RenderedAll(argv[1..]), " ");
            Split(if |argv| == 1 then "" else " " + tail) == Split(tail)
  {
    var tail := Join(RenderedAll(argv[1..]), " ");
    if |argv| > 1 {
      assert (" " + tail)[1..] == tail && (" " + tail)[0] == ' ';
    }
  }

  /** No list that starts with an empty element comes back, whatever follows it. */
  lemma EmptyIsLost(argv: seq<string>)
    requires argv != [] && argv[0] == ""
    ensures Split(Join(RenderedAll(argv), " ")) != Some(argv)
  {
    var text := Join(RenderedAll(argv), " ");
    JoinUnfolds(argv);
    RenderedCounts(argv);
    assert text == if |argv| == 1 then "" else " " + Join(RenderedAll(argv[1..]), " ");
    if Split(text).Some? {
      SplitCounts(text);
    }
  }

  // ---- The container ----

  const DEFAULT_NODE_OPTIONS := "--max-old-space-size=1536"

  datatype AgentContainer = AgentContainer(
    name: string,
    image: string,
    network: string,
    ip: string,
    hostPort: nat,
    containerPort: nat,
    dataDir: string,
    envFile: string,
    memoryLimit: string,
    cpuLimit: string,
    pidsLimit: nat,
    user: string,
    egressProxyName: string,
    proxyBootstrapPath: string)

  predicate Shimmed(c: AgentContainer) {
    c.egressProxyName != "" && c.proxyBootstrapPath != ""
  }

  function RunArgs(c: AgentContainer): seq<string> {
    [ "/usr/bin/docker", "run",
      "--name", c.name,
      "--network", c.network,
      "--ip", c.ip,
      "-p", "127.0.0.1:" + Decimal(c.hostPort) + ":" + Decimal(c.containerPort),
      "--cap-drop", "ALL",
      "--security-opt", "no-new-privileges",
      "--memory", c.memoryLimit,
      "--cpus", c.cpuLimit,
      "--pids-limit", Decimal(c.pidsLimit),
      "--user", c.user,
      "-v", c.dataDir + ":/home/node/.openclaw:rw",
      "--env-file", c.envFile
    ]
  }

  /** The proxy variables, and the shim's mount. */
  function ProxyArgs(c: AgentContainer): seq<string> {
    (if c.egressProxyName == "" then [] else
       [ "-e", "HTTPS_PROXY=http://" + c.egressProxyName + ":3128",
         "-e", "HTTP_PROXY=http://" + c.egressProxyName + ":3128",
         "-e", "NO_PROXY=localhost,127.0.0.1"
       ])
    + if Shimmed(c) then ["-v", c.proxyBootstrapPath + ":/opt/proxy-bootstrap.js:ro"] else []
  }

  function NodeOptions(c: AgentContainer): string {
    "NODE_OPTIONS=" + if Shimmed(c) then DEFAULT_NODE_OPTIONS + " --require /opt/proxy-bootstrap.js" else DEFAULT_NODE_OPTIONS
  }

  function Argv(c: AgentContainer): seq<string> {
    RunArgs(c) + ProxyArgs(c) + ["-e", NodeOptions(c), c.image]
  }

  /** The docker run argv, built by appending. */
  method Args(c: AgentContainer) returns (args: seq<string>)
    ensures args == Argv(c)
  {
    args := RunArgs(c);
    var nodeOpts := DEFAULT_NODE_OPTIONS;
    if c.egressProxyName != "" {
      args := args + [
        "-e", "HTTPS_PROXY=http://" + c.egressProxyName + ":3128",
        "-e", "HTTP_PROXY=http://" + c.egressProxyName + ":3128",
        "-e", "NO_PROXY=localhost,127.0.0.1"
      ];
      if c.proxyBootstrapPath != "" {
        args := args + ["-v", c.proxyBootstrapPath + ":/opt/proxy-bootstrap.js:ro"];
        nodeOpts := nodeOpts + " --require /opt/proxy-bootstrap.js";
      }
    }
    assert args == RunArgs(c) + ProxyArgs(c);
    args := args + ["-e", "NODE_OPTIONS=" + nodeOpts];
    args := args + [c.image];
  }

  // ---- The argv as docker reads it ----

  /** A flag and the value given to it: every flag used here takes one. */
  datatype Given = Given(flag: string, value: string)

  predicate IsFlag(e: string) { e != "" && e[0] == '-' }

  /** The options, up to the first element that is not a flag with a value. */
  function Options(args: seq<string>): seq<Given> {
    if |args| < 2 || !IsFlag(args[0]) then [] else [Given(args[0], args[1])] + Options(args[2..])
  }

  /** What follows the options: the image and its command. */
  function AfterOptions(args: seq<string>): seq<string> {
    if |args| < 2 || !IsFlag(args[0]) then args else AfterOptions(args[2..])
  }

  /** The values given to one flag, in order. */
  function Values(given: seq<Given>, flag: string): seq<string> {
    if given == [] then []
    else (if given[0].flag == flag then [given[0].value] else []) + Values(given[1..], flag)
  }

  function Flat(given: seq<Given>): seq<string> {
    if given == [] then [] else [given[0].flag, given[0].value] + Flat(given[1..])
  }

  lemma {:induction false} FlatReads(given: seq<Given>, last: string)
    requires forall i :: 0 <= i < |given| ==> IsFlag(given[i].flag)
    ensures Options(Flat(given) + [last]) == given && AfterOptions(Flat(given) + [last]) == [last]
  {
    if given != [] {
      var args := Flat(given) + [last];
      assert IsFlag(given[0].flag);
      assert forall i :: 0 <= i < |given[1..]| ==> given[1..][i] == given[i + 1];
      FlatReads(given[1..], last);
      assert args[2..] == Flat(given[1..]) + [last];
    }
  }

  lemma {:induction false} FlatConcat(a: seq<Given>, b: seq<Given>)
    ensures Flat(a + b) == Flat(a) + Flat(b)
  {
    if a == [] {
      assert a + b == b;
    } else {
      assert (a + b)[1..] == a[1..] + b;
      FlatConcat(a[1..], b);
    }
  }

  lemma {:induction false} ValuesConcat(a: seq<Given>, b: seq<Given>, flag: string)
    ensures Values(a + b, flag) == Values(a, flag) + Values(b, flag)
  {
    if a == [] {
      assert a + b == b;
    } else {
      assert (a + b)[1..] == a[1..] + b;
      ValuesConcat(a[1..], b, flag);
    }
  }

  lemma {:induction false} NotGiven(given: seq<Given>, flag: string)
    requires forall i :: 0 <= i < |given| ==> given[i].flag != flag
    ensures Values(given, flag) == []
  {
    if given != [] {
      NotGiven(given[1..], flag);
    }
  }

  lemma GivenOnce(given: seq<Given>, flag: string, k: nat)
    requires k < |given| && forall i :: 0 <= i < |given| ==> (given[i].flag == flag <==> i == k)
    ensures Values(given, flag) == [given[k].value]
  {
    assert given == given[..k] + ([given[k]] + given[k + 1..]);
    ValuesConcat(given[..k], [given[k]] + given[k + 1..], flag);
    NotGiven(given[..k], flag);
    NotGiven(given[k + 1..], flag);
    assert ([given[k]] + given[k + 1..])[1..] == given[k + 1..];
  }

  lemma FlatTwo(a: Given, b: Given)
    ensures Flat([a, b]) == [a.flag, a.value, b.flag, b.value]
    ensures forall flag :: Values([a, b], flag) == (if a.flag == flag then [a.value] else []) + (if b.flag == flag then [b.value] else [])
  {
    assert [a, b][1..] == [b] && [b][1..] == [];
    assert Flat([b]) == [b.flag, b.value] + Flat([]) == [b.flag, b.value];
    forall flag ensures Values([b], flag) == if b.flag == flag then [b.value] else [] {
      assert Values([], flag) == [];
    }
  }

  lemma FlatThree(a: Given, b: Given, c: Given)
    ensures Flat([a, b, c]) == [a.flag, a.value, b.flag, b.value, c.flag, c.value]
    ensures forall flag :: Values([a, b, c], flag)
                           == (if a.flag == flag then [a.value] else []) + (if b.flag == flag then [b.value] else []) + (if c.flag == flag then [c.value] else [])
  {
    assert [a, b, c][1..] == [b, c];
    FlatTwo(b, c);
  }

  lemma FlatFour(a: Given, b: Given, c: Given, d: Given)
    ensures Flat([a, b, c, d]) == [a.flag, a.value, b.flag, b.value, c.flag, c.value, d.flag, d.value]
  {
    assert [a, b, c, d][1..] == [b, c, d];
    FlatThree(b, c, d);
  }

  lemma FlatFive(a: Given, b: Given, c: Given, d: Given, e: Given)
    ensures Flat([a, b, c, d, e]) == [a.flag, a.value, b.flag, b.value, c.flag, c.value, d.flag, d.value, e.flag, e.value]
  {
    assert [a, b, c, d, e][1..] == [b, c, d, e];
    FlatFour(b, c, d, e);
  }

  // ---- The container's options ----

  ghost function AddressOptions(c: AgentContainer): seq<Given> {
    [ Given("--name", c.name), Given("--network", c.network), Given("--ip", c.ip),
      Given("-p", "127.0.0.1:" + Decimal(c.hostPort) + ":" + Decimal(c.containerPort)) ]
  }

  ghost function LimitOptions(c: AgentContainer): seq<Given> {
    [ Given("--cap-drop", "ALL"), Given("--security-opt", "no-new-privileges"), Given("--memory", c.memoryLimit),
      Given("--cpus", c.cpuLimit), Given("--pids-limit", Decimal(c.pidsLimit)) ]
  }

  ghost function UserOptions(c: AgentContainer): seq<Given> {
    [ Given("--user", c.user), Given("-v", c.dataDir + ":/home/node/.openclaw:rw"), Given("--env-file", c.envFile) ]
  }

  ghost function ProxyOptions(c: AgentContainer): seq<Given> {
    if c.egressProxyName == "" then [] else
      [ Given("-e", "HTTPS_PROXY=http://" + c.egressProxyName + ":3128"),
        Given("-e", "HTTP_PROXY=http://" + c.egressProxyName + ":3128"),
        Given("-e", "NO_PROXY=localhost,127.0.0.1") ]
  }

  ghost function ShimOptions(c: AgentContainer): seq<Given> {
    if Shimmed(c) then [Given("-v", c.proxyBootstrapPath + ":/opt/proxy-bootstrap.js:ro")] else []
  }

  ghost function Fixed(c: AgentContainer): seq<Given> {
    AddressOptions(c) + (LimitOptions(c) + UserOptions(c))
  }

  ghost function ContainerOptions(c: AgentContainer): seq<Given> {
    Fixed(c) + (ProxyOptions(c) + ShimOptions(c) + [Given("-e", NodeOptions(c))])
  }

  lemma FixedFlat(c: AgentContainer)
    ensures RunArgs(c) == ["/usr/bin/docker", "run"] + Flat(Fixed(c))
  {
    FlatConcat(AddressOptions(c), LimitOptions(c) + UserOptions(c));
    FlatConcat(LimitOptions(c), UserOptions(c));
    AddressFlat(c);
    LimitFlat(c);
    UserFlat(c);
  }

  lemma AddressFlat(c: AgentContainer)
    ensures Flat(AddressOptions(c)) == RunArgs(c)[2..10]
  {
    var a := AddressOptions(c);
    FlatFour(a[0], a[1], a[2], a[3]);
    assert a == [a[0], a[1], a[2], a[3]];
    var b := RunArgs(c);
    assert b[2..10] == [b[2], b[3], b[4], b[5], b[6], b[7], b[8], b[9]];
    assert b[2] == a[0].flag && b[3] == a[0].value && b[4] == a[1].flag && b[5] == a[1].value;
    assert b[6] == a[2].flag && b[7] == a[2].value && b[8] == a[3].flag && b[9] == a[3].value;
  }

  lemma LimitFlat(c: AgentContainer)
    ensures Flat(LimitOptions(c)) == RunArgs(c)[10..20]
  {
    var a := LimitOptions(c);
    FlatFive(a[0], a[1], a[2], a[3], a[4]);
    assert a == [a[0], a[1], a[2], a[3], a[4]];
  }

  lemma UserFlat(c: AgentContainer)
    ensures Flat(UserOptions(c)) == RunArgs(c)[20..26]
  {
    var a := UserOptions(c);
    FlatThree(a[0], a[1], a[2]);
    assert a == [a[0], a[1], a[2]];
  }

  lemma ProxyFlat(c: AgentContainer)
    ensures Flat(ProxyOptions(c) + ShimOptions(c)) == ProxyArgs(c)
  {
    FlatConcat(ProxyOptions(c), ShimOptions(c));
    var a := ProxyOptions(c);
    if a != [] {
      FlatThree(a[0], a[1], a[2]);
      assert a == [a[0], a[1], a[2]];
    }
  }

  predicate AllFlags(given: seq<Given>) {
    forall i :: 0 <= i < |given| ==> IsFlag(given[i].flag)
  }

  lemma FlatOne(g: Given)
    ensures Flat([g]) == [g.flag, g.value]
  {
    assert Flat([g]) == [g.flag, g.value] + Flat([]);
  }

  lemma LastApart(a: seq<string>, b: seq<string>, x: string, y: string, z: string)
    ensures a + (b + [x, y, z]) == a + (b + [x, y]) + [z]
  {
    assert [x, y, z] == [x, y] + [z];
    assert b + [x, y, z] == b + [x, y] + [z];
  }

  lemma ReadsParts(fixed: seq<Given>, proxy: seq<Given>, node: Given, image: string)
    requires AllFlags(fixed) && AllFlags(proxy) && IsFlag(node.flag)
    ensures var args := Flat(fixed) + (Flat(proxy) + [node.flag, node.value, image]);
            Options(args) == fixed + (proxy + [node]) && AfterOptions(args) == [image]
  {
    FlatConcat(fixed, proxy + [node]);
    FlatConcat(proxy, [node]);
    FlatOne(node);
    LastApart(Flat(fixed), Flat(proxy), node.flag, node.value, image);
    FlatReads(fixed + (proxy + [node]), image);
  }

  lemma ArgvIsFlat(c: AgentContainer)
    ensures Argv(c)[..2] == ["/usr/bin/docker", "run"]
    ensures Argv(c)[2..] == Flat(Fixed(c)) + (Flat(ProxyOptions(c) + ShimOptions(c)) + ["-e", NodeOptions(c), c.image])
  {
    FixedFlat(c);
    ProxyFlat(c);
    Regroup("/usr/bin/docker", "run", Flat(Fixed(c)), ProxyArgs(c), ["-e", NodeOptions(c), c.image]);
  }

  lemma Regroup(x: string, y: string, a: seq<string>, b: seq<string>, c: seq<string>)
    ensures ([x, y] + a + b + c)[..2] == [x, y] && ([x, y] + a + b + c)[2..] == a + (b + c)
  {
  }

  lemma FlagsOfOptions(c: AgentContainer)
    ensures AllFlags(AddressOptions(c)) && AllFlags(LimitOptions(c)) && AllFlags(UserOptions(c))
    ensures AllFlags(ProxyOptions(c)) && AllFlags(ShimOptions(c))
  {
  }

  lemma ReadsItsOptions(c: AgentContainer)
    ensures Argv(c)[..2] == ["/usr/bin/docker", "run"]
    ensures Options(Argv(c)[2..]) == ContainerOptions(c) && AfterOptions(Argv(c)[2..]) == [c.image]
  {
    ArgvIsFlat(c);
    FlagsOfOptions(c);
    ReadsParts(Fixed(c), ProxyOptions(c) + ShimOptions(c), Given("-e", NodeOptions(c)), c.image);
  }

  /** A flag given among the fixed options is given there once. */
  lemma FixedOnce(c: AgentContainer, flag: string, k: nat)
    requires k < 12
    requires forall i :: 0 <= i < 12 ==> (Fixed(c)[i].flag == flag <==> i == k)
    ensures Values(Fixed(c), flag) == [Fixed(c)[k].value]
  {
    GivenOnce(Fixed(c), flag, k);
  }

  lemma AddressOnce(c: AgentContainer)
    ensures && Values(Fixed(c), "--name") == [c.name]
         && Values(Fixed(c), "--network") == [c.network]
         && Values(Fixed(c), "--ip") == [c.ip]
         && Values(Fixed(c), "-p") == ["127.0.0.1:" + Decimal(c.hostPort) + ":" + Decimal(c.containerPort)]
  {
    FixedOnce(c, "--name", 0);
    FixedOnce(c, "--network", 1);
    FixedOnce(c, "--ip", 2);
    FixedOnce(c, "-p", 3);
  }

  lemma LimitOnce(c: AgentContainer)
    ensures && Values(Fixed(c), "--cap-drop") == ["ALL"]
         && Values(Fixed(c), "--security-opt") == ["no-new-privileges"]
         && Values(Fixed(c), "--memory") == [c.memoryLimit]
         && Values(Fixed(c), "--cpus") == [c.cpuLimit]
  {
    FixedOnce(c, "--cap-drop", 4);
    FixedOnce(c, "--security-opt", 5);
    FixedOnce(c, "--memory", 6);
    FixedOnce(c, "--cpus", 7);
  }

  lemma UserOnce(c: AgentContainer)
    ensures && Values(Fixed(c), "--pids-limit") == [Decimal(c.pidsLimit)]
         && Values(Fixed(c), "--user") == [c.user]
         && Values(Fixed(c), "--env-file") == [c.envFile]
  {
    FixedOnce(c, "--pids-limit", 8);
    FixedOnce(c, "--user", 9);
    FixedOnce(c, "--env-file", 11);
  }

  /** Each field under its own flag, once. */
  predicate CarriesFields(given: seq<Given>, c: AgentContainer) {
    && Values(given, "--name") == [c.name]
    && Values(given, "--network") == [c.network]
    && Values(given, "--ip") == [c.ip]
    && Values(given, "-p") == ["127.0.0.1:" + Decimal(c.hostPort) + ":" + Decimal(c.containerPort)]
    && Values(given, "--cap-drop") == ["ALL"]
    && Values(given, "--security-opt") == ["no-new-privileges"]
    && Values(given, "--memory") == [c.memoryLimit]
    && Values(given, "--cpus") == [c.cpuLimit]
    && Values(given, "--pids-limit") == [Decimal(c.pidsLimit)]
    && Values(given, "--user") == [c.user]
    && Values(given, "--env-file") == [c.envFile]
  }

  /** Variables and mounts take no field's flag. */
  lemma StillCarries(fixed: seq<Given>, rest: seq<Given>, c: AgentContainer)
    requires CarriesFields(fixed, c)
    requires forall i :: 0 <= i < |rest| ==> rest[i].flag == "-e" || rest[i].flag == "-v"
    ensures CarriesFields(fixed + rest, c)
  {
    forall flag: string | flag != "-e" && flag != "-v" ensures Values(fixed + rest, flag) == Values(fixed, flag) {
      ValuesConcat(fixed, rest, flag);
      NotGiven(rest, flag);
    }
  }

  lemma FixedCarries(c: AgentContainer)
    ensures CarriesFields(Fixed(c), c)
  {
    AddressOnce(c);
    LimitOnce(c);
    UserOnce(c);
  }

  /** Docker reads the image, and each field of the container under its own flag, once. */
  lemma DockerReads(c: AgentContainer)
    ensures Argv(c)[..2] == ["/usr/bin/docker", "run"] && AfterOptions(Argv(c)[2..]) == [c.image]
    ensures CarriesFields(Options(Argv(c)[2..]), c)
  {
    ReadsItsOptions(c);
    FixedCarries(c);
    StillCarries(Fixed(c), ProxyOptions(c) + ShimOptions(c) + [Given("-e", NodeOptions(c))], c);
  }

  /** The data directory is mounted, and the shim exactly when a proxy is named and a path given. */
  lemma DockerReadsMounts(c: AgentContainer)
    ensures Values(Options(Argv(c)[2..]), "-v")
            == [c.dataDir + ":/home/node/.openclaw:rw"]
               + if c.egressProxyName != "" && c.proxyBootstrapPath != "" then [c.proxyBootstrapPath + ":/opt/proxy-bootstrap.js:ro"] else []
  {
    var proxy, shim, node := ProxyOptions(c), ShimOptions(c), [Given("-e", NodeOptions(c))];
    ReadsItsOptions(c);
    FixedOnce(c, "-v", 10);
    NotGiven(proxy, "-v");
    NotGiven(node, "-v");
    if Shimmed(c) {
      GivenOnce(shim, "-v", 0);
    }
    ValuesFour(Fixed(c), proxy, shim, node, "-v");
  }

  /** The proxy variables name the proxy; NODE_OPTIONS comes last, asking for the shim exactly when
      it is mounted; and there are no options but the fields', the mounts and the variables. */
  lemma DockerReadsVariables(c: AgentContainer)
    ensures var given := Options(Argv(c)[2..]);
            && Values(given, "-e")
               == (if c.egressProxyName == "" then [] else
                     ["HTTPS_PROXY=http://" + c.egressProxyName + ":3128",
                      "HTTP_PROXY=http://" + c.egressProxyName + ":3128",
                      "NO_PROXY=localhost,127.0.0.1"])
                  + ["NODE_OPTIONS=" + if c.egressProxyName != "" && c.proxyBootstrapPath != ""
                                       then DEFAULT_NODE_OPTIONS + " --require /opt/proxy-bootstrap.js" else DEFAULT_NODE_OPTIONS]
            && |given| == 11 + |Values(given, "-v")| + |Values(given, "-e")|
  {
    var proxy, shim, node := ProxyOptions(c), ShimOptions(c), [Given("-e", NodeOptions(c))];
    ReadsItsOptions(c);
    DockerReadsMounts(c);
    NotGiven(Fixed(c), "-e");
    NotGiven(shim, "-e");
    GivenOnce(node, "-e", 0);
    ProxyVariables(c);
    ValuesFour(Fixed(c), proxy, shim, node, "-e");
  }

  lemma ValuesFour(a: seq<Given>, b: seq<Given>, c: seq<Given>, d: seq<Given>, flag: string)
    ensures Values(a + (b + c + d), flag) == Values(a, flag) + (Values(b, flag) + Values(c, flag) + Values(d, flag))
  {
    ValuesConcat(a, b + c + d, flag);
    ValuesConcat(b + c, d, flag);
    ValuesConcat(b, c, flag);
  }

  lemma ProxyVariables(c: AgentContainer)
    ensures Values(ProxyOptions(c), "-e") == if c.egressProxyName == "" then [] else
              ["HTTPS_PROXY=http://" + c.egressProxyName + ":3128",
               "HTTP_PROXY=http://" + c.egressProxyName + ":3128",
               "NO_PROXY=localhost,127.0.0.1"]
  {
    var a := ProxyOptions(c);
    if a != [] {
      FlatThree(a[0], a[1], a[2]);
      assert a == [a[0], a[1], a[2]];
    }
  }

  // ---- Which containers have a good argv ----

  /** A field that stands as an element of its own is Good; one inside a longer element may also
      be empty, or a lone semicolon. */
  predicate GoodInside(f: string) {
    && !HasBad(f)
    && if HasBlank(f) then '\"' !in f else !HasQuote(f)
  }

  predicate FieldsGood(c: AgentContainer) {
    && Good(c.name) && Good(c.network) && Good(c.ip) && Good(c.memoryLimit) && Good(c.cpuLimit)
    && Good(c.user) && Good(c.envFile) && Good(c.image)
    && GoodInside(c.dataDir) && GoodInside(c.egressProxyName)
    && (Shimmed(c) ==> GoodInside(c.proxyBootstrapPath))
  }

  /** Text with nothing in it that needs care. */
  predicate Tame(s: string) {
    forall i :: 0 <= i < |s| ==> !Bad(s[i]) && !Blank(s[i]) && !QuoteMark(s[i])
  }

  lemma {:induction false} TameNumber(n: nat)
    ensures Decimal(n) != "" && Tame(Decimal(n))
  {
    if n >= 10 {
      TameNumber(n / 10);
    }
  }

  lemma TameConcat(a: string, b: string)
    requires Tame(a) && Tame(b)
    ensures Tame(a + b)
  {
  }

  lemma TameIsGood(s: string)
    requires Tame(s) && |s| >= 2
    ensures Good(s)
  {
  }

  /** Surrounding a field with tame text keeps it as good as it was. */
  lemma GoodAround(pre: string, f: string, post: string)
    requires Tame(pre) && Tame(post) && |pre| + |post| >= 2
    ensures Good(pre + f + post) <==> GoodInside(f)
  {
    var e := pre + f + post;
    assert forall i :: 0 <= i < |f| ==> e[|pre| + i] == f[i];
    assert forall i :: 0 <= i < |pre| ==> e[i] == pre[i];
    assert forall i :: 0 <= i < |post| ==> e[|pre| + |f| + i] == post[i];
    assert forall i :: 0 <= i < |e| ==> e[i] == if i < |pre| then pre[i] else if i < |pre| + |f| then f[i - |pre|] else post[i - |pre| - |f|];
  }

  lemma PortGood(host: nat, container: nat)
    ensures Good("127.0.0.1:" + Decimal(host) + ":" + Decimal(container))
  {
    TameNumber(host);
    TameNumber(container);
    assert Tame("127.0.0.1:");
    assert Tame(":");
    TameConcat("127.0.0.1:", Decimal(host));
    TameConcat("127.0.0.1:" + Decimal(host), ":");
    TameConcat("127.0.0.1:" + Decimal(host) + ":", Decimal(container));
    TameIsGood("127.0.0.1:" + Decimal(host) + ":" + Decimal(container));
  }

  lemma {:induction false} NumberGood(n: nat)
    ensures Good(Decimal(n))
  {
    TameNumber(n);
    if n < 10 {
      assert Decimal(n)[0] != ';';
    } else {
      TameNumber(n / 10);
    }
  }

  lemma CommandGood()
    ensures Good("/usr/bin/docker")
    ensures Good("run")
    ensures Good("--name")
    ensures Good("--network")
  {
    TameIsGood("/usr/bin/docker");
    TameIsGood("run");
    TameIsGood("--name");
    TameIsGood("--network");
  }

  lemma AddressFlagsGood()
    ensures Good("--ip")
    ensures Good("-p")
    ensures Good("--cap-drop")
    ensures Good("ALL")
  {
    TameIsGood("--ip");
    TameIsGood("-p");
    TameIsGood("--cap-drop");
    TameIsGood("ALL");
  }

  lemma SecurityFlagsGood()
    ensures Good("--security-opt")
    ensures Good("no-new-privileges")
    ensures Good("--memory")
    ensures Good("--cpus")
  {
    TameIsGood("--security-opt");
    TameIsGood("no-new-privileges");
    TameIsGood("--memory");
    TameIsGood("--cpus");
  }

  lemma UserFlagsGood()
    ensures Good("--pids-limit")
    ensures Good("--user")
    ensures Good("-v")
    ensures Good("--env-file")
  {
    TameIsGood("--pids-limit");
    TameIsGood("--user");
    TameIsGood("-v");
    TameIsGood("--env-file");
  }

  lemma NodeOptionsGood(c: AgentContainer)
    ensures Good(NodeOptions(c))
  {
    var base := "NODE_OPTIONS=" + DEFAULT_NODE_OPTIONS;
    NodeBaseTame();
    if Shimmed(c) {
      ShimIsInside();
      GoodAround(base, " --require /opt/proxy-bootstrap.js", "");
      assert NodeOptions(c) == base + " --require /opt/proxy-bootstrap.js" + "";
    } else {
      TameIsGood(base);
    }
  }

  lemma NodeBaseTame()
    ensures Tame("NODE_OPTIONS=" + DEFAULT_NODE_OPTIONS)
  {
    assert Tame("NODE_OPTIONS=");
    assert Tame(DEFAULT_NODE_OPTIONS);
    TameConcat("NODE_OPTIONS=", DEFAULT_NODE_OPTIONS);
  }

  lemma ShimIsInside()
    ensures GoodInside(" --require /opt/proxy-bootstrap.js")
  {
    var e := " --require /opt/proxy-bootstrap.js";
    assert Blank(e[0]);
    assert forall i :: 0 <= i < |e| ==> !Bad(e[i]) && e[i] != '\"';
  }

  /** Every element is a fixed one, at its position, or one of the fields. */
  lemma ByPosition(a: seq<string>)
    requires |a| == 26
    requires Good(a[0]) && Good(a[1]) && Good(a[2]) && Good(a[4]) && Good(a[6]) && Good(a[8]) && Good(a[9]) && Good(a[10]) && Good(a[11])
    requires Good(a[12]) && Good(a[13]) && Good(a[14]) && Good(a[16]) && Good(a[18]) && Good(a[19]) && Good(a[20]) && Good(a[22]) && Good(a[24])
    ensures AllGood(a) <==> Good(a[3]) && Good(a[5]) && Good(a[7]) && Good(a[15]) && Good(a[17]) && Good(a[21]) && Good(a[23]) && Good(a[25])
  {
  }

  lemma RunArgsGoodIff(c: AgentContainer)
    ensures AllGood(RunArgs(c)) <==>
              && Good(c.name) && Good(c.network) && Good(c.ip) && Good(c.memoryLimit) && Good(c.cpuLimit)
              && Good(c.user) && Good(c.envFile) && GoodInside(c.dataDir)
  {
    FirstFixed(c);
    PortsFixed(c);
    SecurityFixed(c);
    LastFixed(c);
    ByPosition(RunArgs(c));
    DataGoodIff(c.dataDir);
  }

  lemma FirstFixed(c: AgentContainer)
    ensures var a := RunArgs(c); Good(a[0]) && Good(a[1]) && Good(a[2]) && Good(a[4]) && Good(a[6]) && Good(a[8])
  {
    CommandGood();
    AddressFlagsGood();
  }

  lemma PortsFixed(c: AgentContainer)
    ensures Good(RunArgs(c)[9]) && Good(RunArgs(c)[18]) && Good(RunArgs(c)[19])
  {
    PortGood(c.hostPort, c.containerPort);
    NumberGood(c.pidsLimit);
    UserFlagsGood();
  }

  lemma SecurityFixed(c: AgentContainer)
    ensures var a := RunArgs(c); Good(a[10]) && Good(a[11]) && Good(a[12]) && Good(a[13]) && Good(a[14]) && Good(a[16])
  {
    AddressFlagsGood();
    SecurityFlagsGood();
  }

  lemma LastFixed(c: AgentContainer)
    ensures var a := RunArgs(c); Good(a[20]) && Good(a[22]) && Good(a[24])
  {
    UserFlagsGood();
  }

  lemma DataGoodIff(dir: string)
    ensures Good(dir + ":/home/node/.openclaw:rw") <==> GoodInside(dir)
  {
    GoodAround("", dir, ":/home/node/.openclaw:rw");
    assert "" + dir + ":/home/node/.openclaw:rw" == dir + ":/home/node/.openclaw:rw";
  }

  lemma VariablesGoodIff(proxy: string)
    ensures Good("HTTPS_PROXY=http://" + proxy + ":3128") <==> GoodInside(proxy)
    ensures Good("HTTP_PROXY=http://" + proxy + ":3128") <==> GoodInside(proxy)
  {
    GoodAround("HTTPS_PROXY=http://", proxy, ":3128");
    GoodAround("HTTP_PROXY=http://", proxy, ":3128");
  }

  lemma MountGoodIff(path: string)
    ensures Good(path + ":/opt/proxy-bootstrap.js:ro") <==> GoodInside(path)
  {
    GoodAround("", path, ":/opt/proxy-bootstrap.js:ro");
    assert "" + path + ":/opt/proxy-bootstrap.js:ro" == path + ":/opt/proxy-bootstrap.js:ro";
  }

  lemma EnvFlagGood()
    ensures Good("-e") && Good("NO_PROXY=localhost,127.0.0.1")
  {
    TameIsGood("-e");
    TameIsGood("NO_PROXY=localhost,127.0.0.1");
  }

  lemma ProxyArgsGoodIff(c: AgentContainer)
    ensures AllGood(ProxyArgs(c)) <==>
              (c.egressProxyName != "" ==> GoodInside(c.egressProxyName))
              && (Shimmed(c) ==> GoodInside(c.proxyBootstrapPath))
  {
    var a := ProxyArgs(c);
    EnvFlagGood();
    UserFlagsGood();
    VariablesGoodIff(c.egressProxyName);
    MountGoodIff(c.proxyBootstrapPath);
    if c.egressProxyName != "" {
      assert a[1] in a && a[3] in a;
    }
    if Shimmed(c) {
      assert a[7] in a;
    }
  }

  lemma ArgvGoodIff(c: AgentContainer)
    ensures AllGood(Argv(c)) <==> FieldsGood(c)
  {
    EnvFlagGood();
    NodeOptionsGood(c);
    RunArgsGoodIff(c);
    ProxyArgsGoodIff(c);
    var last := ["-e", NodeOptions(c), c.image];
    assert last[2] == c.image;
    assert AllGood(Argv(c)) <==> AllGood(RunArgs(c)) && AllGood(ProxyArgs(c)) && AllGood(last);
    assert GoodInside("");
  }

  /** The unit line of a container splits back into its argv if and only if its fields are good. */
  method UnitLine(c: AgentContainer) returns (value: string)
    ensures Split(value) == Some(Argv(c)) <==> FieldsGood(c)
  {
    var args := Args(c);
    value := SystemdExecStart(args);
    SplitsBackIff(args);
    ArgvGoodIff(c);
  }

  // ---- The documented precondition is not enough ----

  /** What the comment above SystemdExecStart asks for. */
  predicate Documented(e: string) {
    '\"' !in e && '\\' !in e && '%' !in e && '$' !in e
  }

  /** It leaves out the apostrophe, the line ends, the lone semicolon and the empty element; with
      those shut out as well it is enough, and for elements without blanks just right. */
  lemma DocumentedFallsShort(e: string)
    requires Documented(e)
    ensures Good(e) <==>
              && '\n' !in e && '\r' !in e && '\0' !in e
              && (HasBlank(e) || (e != "" && e != ";" && '\'' !in e))
  {
    assert HasBad(e) <==> '\n' in e || '\r' in e || '\0' in e;
    assert HasQuote(e) <==> '\'' in e;
  }

  /** Two elements can even come back as one: an apostrophe opens an item that the blank does
      not end. */
  lemma TwoBecomeOne(a: string, b: string)
    requires forall i :: 0 <= i < |a| ==> !Blank(a[i]) && !Bad(a[i]) && !QuoteMark(a[i])
    requires forall i :: 0 <= i < |b| ==> !Blank(b[i]) && !Bad(b[i]) && !QuoteMark(b[i])
    ensures var argv := [['\''] + a, b + ['\'']];
            && Documented(argv[0]) && Documented(argv[1])
            && Split(Join(RenderedAll(argv), " ")) == Some([a + " " + b])
  {
    var x, y := ['\''] + a, b + ['\''];
    var body := a + " " + b;
    JoinUnfolds([x, y]);
    assert [x, y][1..] == [y];
    JoinUnfolds([y]);
    assert x + (" " + y) == ['\''] + body + ['\''];
    QuotedItemSplits(body, '\'');
  }

  lemma QuotedItemSplits(body: string, q: char)
    requires QuoteMark(q) && q !in body && !HasBad(body)
    ensures Split([q] + body + [q]) == Some([body])
  {
    var text := [q] + body + [q];
    assert text[1..] == body + [q] + "";
    QuoteEndAt(body, "", q);
    assert text[1..][..|body|] == body;
    assert text[|body| + 2..] == "";
    assert [body] + [] == [body];
  }
}
