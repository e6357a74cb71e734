/** Channel bindings, their validation, and the routing tables derived from a fleet
    (pkg/channels, pkg/common/routing.go). */
module Routing {
  import opened Optional
  import opened Strings
  import opened Sequences
  import Network

  datatype AgentType = User | Team

  datatype Binding = Binding(platform: string, id: string, caption: string)

  datatype Agent = Agent(name: string, kind: AgentType, runtime: string, bindings: seq<Binding>, port: int, paused: bool)

  // ---- The registered platforms ----

  const SLACK := "slack"
  const TELEGRAM := "telegram"
  const OPENCLAW := "openclaw"
  const HERMES := "hermes"

  predicate Registered(platform: string) {
    platform == SLACK || platform == TELEGRAM
  }

  predicate IsUpperAlnum(c: char) { IsDigit(c) || 'A' <= c <= 'Z' }

  predicate AllFrom(s: string, start: nat, ok: char -> bool)
    requires start <= |s|
  {
    forall i :: start <= i < |s| ==> ok(s[i])
  }

  /** ^U[A-Z0-9]{8,12}$ for users, ^C[A-Z0-9]{8,12}$ for teams. */
  predicate SlackID(kind: AgentType, id: string) {
    && 9 <= |id| <= 13
    && id[0] == (if kind == User then 'U' else 'C')
    && AllFrom(id, 1, IsUpperAlnum)
  }

  /** ^[1-9]\d{4,14}$ for users, ^-\d{5,15}$ for teams. */
  predicate TelegramID(kind: AgentType, id: string) {
    if kind == User then
      5 <= |id| <= 15 && '1' <= id[0] <= '9' && AllFrom(id, 1, IsDigit)
    else
      6 <= |id| <= 16 && id[0] == '-' && AllFrom(id, 1, IsDigit)
  }

  predicate Alnums(s: string) {
    8 <= |s| <= 12 && forall i :: 0 <= i < |s| ==> IsUpperAlnum(s[i])
  }

  predicate Digits(s: string, least: nat, most: nat) {
    least <= |s| <= most && forall i :: 0 <= i < |s| ==> IsDigit(s[i])
  }

  /** The patterns, read as a head and a counted tail. */
  lemma SlackIDs(kind: AgentType, id: string)
    ensures SlackID(kind, id) <==> id != "" && id[0] == (if kind == User then 'U' else 'C') && Alnums(id[1..])
  {
    assert forall i :: 1 <= i < |id| ==> id[i] == id[1..][i - 1];
  }

  lemma TelegramIDs(kind: AgentType, id: string)
    ensures TelegramID(kind, id) <==>
              id != "" && (if kind == User then '1' <= id[0] <= '9' && Digits(id[1..], 4, 14)
                           else id[0] == '-' && Digits(id[1..], 5, 15))
  {
    assert forall i :: 1 <= i < |id| ==> id[i] == id[1..][i - 1];
  }

  predicate ValidateBinding(platform: string, kind: AgentType, id: string) {
    (platform == SLACK && SlackID(kind, id)) || (platform == TELEGRAM && TelegramID(kind, id))
  }

  /** Telegram exists for one runtime only. */
  predicate SupportsRuntime(platform: string, runtime: string) {
    platform == SLACK || runtime == HERMES
  }

  function ResolveRuntime(agentRuntime: string, globalDefault: string): string {
    if agentRuntime != "" then agentRuntime
    else if globalDefault != "" then globalDefault
    else OPENCLAW
  }

  function DefaultPath(platform: string): string {
    if platform == SLACK then "/slack/events"
    else if platform == TELEGRAM then "/telegram/events"
    else "/" + platform + "/events"
  }

  function WebhookPath(runtime: string, platform: string): string {
    if runtime == HERMES then "/webhooks/" + platform else DefaultPath(platform)
  }

  /** An ID that is valid on one platform is valid on no other, for whatever agent type. */
  lemma PlatformsDoNotCollide(p: string, q: string, k: AgentType, l: AgentType, id: string)
    requires ValidateBinding(p, k, id) && ValidateBinding(q, l, id)
    ensures p == q && k == l
  {
  }

  /** The runtime decides the shape of the path, the platform its name. */
  lemma WebhookPathsAre(runtime: string, platform: string)
    ensures runtime == "hermes" ==> WebhookPath(runtime, platform) == "/webhooks/" + platform
    ensures runtime != "hermes" && (platform == "slack" || platform == "telegram") ==>
              WebhookPath(runtime, platform) == "/" + platform + "/events"
  {
    assert "/" + SLACK + "/events" == "/slack/events";
    assert "/" + TELEGRAM + "/events" == "/telegram/events";
  }

  /** No webhook path serves two platforms. */
  lemma PathsDoNotCollide(r: string, s: string, p: string, q: string)
    requires Registered(p) && Registered(q) && WebhookPath(r, p) == WebhookPath(s, q)
    ensures p == q
  {
    assert DefaultPath(SLACK)[1] == 's' && DefaultPath(TELEGRAM)[1] == 't';
    assert ("/webhooks/" + p)[1] == 'w' && ("/webhooks/" + q)[1] == 'w';
    assert ("/webhooks/" + p)[10..] == p && ("/webhooks/" + q)[10..] == q;
  }

  // ---- Binding lists ----

  function BindingFor(a: Agent, platform: string): (i: nat)
    ensures i <= |a.bindings|
    ensures i < |a.bindings| ==> a.bindings[i].platform == platform
    ensures forall j :: 0 <= j < i ==> a.bindings[j].platform != platform
  {
    FirstOf(a.bindings, platform)
  }

  function FirstOf(bs: seq<Binding>, platform: string): (i: nat)
    ensures i <= |bs|
    ensures i < |bs| ==> bs[i].platform == platform
    ensures forall j :: 0 <= j < i ==> bs[j].platform != platform
  {
    if bs == [] || bs[0].platform == platform then 0
    else
      var rest := FirstOf(bs[1..], platform);
      assert forall j :: 1 <= j < |bs| ==> bs[j] == bs[1..][j - 1];
      rest + 1
  }

  predicate IsBoundTo(a: Agent, platform: string) {
    BindingFor(a, platform) < |a.bindings|
  }

  function Filtered(bs: seq<Binding>, platform: string): seq<Binding> {
    if bs == [] then []
    else
      var init, last := Filtered(bs[..|bs| - 1], platform), bs[|bs| - 1];
      if last.platform != platform then init + [last] else init
  }

  method FilterBindings(bs: seq<Binding>, platform: string) returns (result: seq<Binding>)
    ensures result == Filtered(bs, platform)
  {
    result := [];
    for i := 0 to |bs|
      invariant result == Filtered(bs[..i], platform)
    {
      assert bs[..i + 1][..i] == bs[..i];
      if bs[i].platform != platform {
        result := result + [bs[i]];
      }
    }
    assert bs[..|bs|] == bs;
  }

  /** At most one binding a platform. */
  ghost predicate OnePerPlatform(bs: seq<Binding>) {
    forall i, j :: 0 <= i < j < |bs| ==> bs[i].platform != bs[j].platform
  }

  lemma {:induction false} FilteredMembers(bs: seq<Binding>, platform: string)
    ensures forall b :: b in Filtered(bs, platform) <==> b in bs && b.platform != platform
    ensures OnePerPlatform(bs) ==> OnePerPlatform(Filtered(bs, platform))
  {
    if bs != [] {
      var init, last := bs[..|bs| - 1], bs[|bs| - 1];
      FilteredMembers(init, platform);
      assert bs == init + [last];
      if OnePerPlatform(bs) {
        assert OnePerPlatform(init);
        var f := Filtered(init, platform);
        forall i | 0 <= i < |f|
          ensures f[i].platform != last.platform
        {
          assert f[i] in f;
          assert f[i] in init;
        }
      }
    }
  }

  /** The bindings that stay do so in their order. */
  lemma {:induction false} FilteredPicks(bs: seq<Binding>, platform: string) returns (at: seq<nat>)
    ensures Picks(bs, Filtered(bs, platform), at, (before: seq<Binding>, b: Binding) => b.platform != platform)
  {
    at := [];
    if bs != [] {
      var init, last := bs[..|bs| - 1], bs[|bs| - 1];
      at := FilteredPicks(init, platform);
      at := PicksSnoc(init, Filtered(init, platform), at, (before: seq<Binding>, b: Binding) => b.platform != platform, last);
      assert init + [last] == bs;
    }
  }

  datatype Parsed = Bad | Parsed(platform: string, id: string)

  /** Splits at the first colon and requires a registered platform. */
  function ParseBinding(s: string): Parsed {
    if ':' !in s then Bad
    else
      var i := IndexOfColon(s);
      if Registered(s[..i]) then Parsed(s[..i], s[i + 1..]) else Bad
  }

  function IndexOfColon(s: string): (i: nat)
    requires ':' in s
    ensures i < |s| && s[i] == ':' && ':' !in s[..i]
  {
    if s[0] == ':' then 0
    else
      assert s == [s[0]] + s[1..];
      var i := IndexOfColon(s[1..]) + 1;
      assert s[..i] == [s[0]] + s[1..][..i - 1];
      i
  }

  /** Parsing undoes printing, for every ID, colons included. */
  lemma ParsePrinted(platform: string, id: string)
    requires Registered(platform)
    ensures ParseBinding(platform + ":" + id) == Parsed(platform, id)
  {
    var s := platform + ":" + id;
    assert s[|platform|] == ':';
    assert ':' !in platform;
    var i := IndexOfColon(s);
    assert forall k :: 0 <= k < |platform| ==> s[k] == platform[k];
    assert forall k :: 0 <= k < i ==> s[..i][k] == s[k];
    assert i == |platform|;
    assert s[..i] == platform && s[i + 1..] == id;
  }

  /** Parsing accepts exactly what printing makes of a registered platform. */
  lemma ParsesExactly(s: string)
    ensures ParseBinding(s).Parsed? <==> exists p, id :: Registered(p) && s == p + ":" + id
    ensures ParseBinding(s).Parsed? ==> Registered(ParseBinding(s).platform) && s == ParseBinding(s).platform + ":" + ParseBinding(s).id
  {
    if p, id :| Registered(p) && s == p + ":" + id {
      ParsePrinted(p, id);
    }
    if ParseBinding(s).Parsed? {
      var i := IndexOfColon(s);
      assert s == s[..i] + ":" + s[i + 1..];
    }
  }

  // ---- Routes ----

  datatype Section = Members | Channels

  datatype Url = Url(host: string, port: int, path: string)

  datatype Route = Route(section: Section, key: string, url: Url)

  /** What a resolver says of a runtime and a platform. */
  datatype WebhookTarget = WebhookTarget(port: int, path: string, loopback: bool)

  /** None is Go's nil resolver. */
  type WebhookResolver = Option<(string, string) -> WebhookTarget>

  /** The resolver of every single-host provider. */
  function Loopback(globalRuntime: string): WebhookResolver {
    Some((runtime: string, platform: string) =>
      WebhookTarget(0, WebhookPath(ResolveRuntime(runtime, globalRuntime), platform), true))
  }

  /** On the host's loopback an agent is reached on Hermes's path exactly if Hermes is its own
      runtime, or the global one while it has none. */
  lemma LoopbackPath(globalRuntime: string, runtime: string, platform: string)
    requires platform == "slack" || platform == "telegram"
    ensures var t := Loopback(globalRuntime).value(runtime, platform);
            t.loopback && t.path == if runtime == "hermes" || (runtime == "" && globalRuntime == "hermes")
                                    then "/webhooks/" + platform else "/" + platform + "/events"
  {
    WebhookPathsAre(ResolveRuntime(runtime, globalRuntime), platform);
    assert OPENCLAW != HERMES;
  }

  /** Where an agent receives a platform's events: on its published loopback port, or on its
      container's name in the bridge network. */
  function TargetUrl(a: Agent, platform: string, g: WebhookResolver): Url {
    if g.None? then Url("conga-" + a.name, Network.BASE_GATEWAY_PORT, DefaultPath(platform))
    else
      var t := g.value(a.runtime, platform);
      if t.loopback then Url("127.0.0.1", a.port, t.path)
      else Url("conga-" + a.name, if t.port != 0 then t.port else Network.BASE_GATEWAY_PORT, t.path)
  }

  /** In the bridge network an agent is reached under its own name, on the gateway port where the
      runtime names none; on the loopback on its own port; and on the path the resolver names.
      Agents of different names and ports are never reached at one place. */
  lemma DeliveredTo(a: Agent, b: Agent, platform: string, other: string, g: WebhookResolver)
    requires platform == "slack" || platform == "telegram"
    ensures var u := TargetUrl(a, platform, g);
            if g.None? then u == Url("conga-" + a.name, 18789, "/" + platform + "/events")
            else
              var t := g.value(a.runtime, platform);
              && u.path == t.path
              && (t.loopback ==> u.host == "127.0.0.1" && u.port == a.port)
              && (!t.loopback ==> u.host == "conga-" + a.name && u.port == if t.port == 0 then 18789 else t.port)
    ensures a.name != b.name && a.port != b.port ==>
              var u, v := TargetUrl(a, platform, g), TargetUrl(b, other, g);
              u.host != v.host || u.port != v.port
  {
    assert "/" + SLACK + "/events" == "/slack/events";
    assert "/" + TELEGRAM + "/events" == "/telegram/events";
    assert ("conga-" + a.name)[6..] == a.name && ("conga-" + b.name)[6..] == b.name;
    assert ("conga-" + a.name)[0] == 'c' && ("conga-" + b.name)[0] == 'c';
  }

  function SectionOf(kind: AgentType): Section {
    if kind == User then Members else Channels
  }

  predicate Routable(b: Binding) {
    Registered(b.platform) && b.id != ""
  }

  function BindingRoutes(a: Agent, bs: seq<Binding>, g: WebhookResolver): seq<Route> {
    if bs == [] then []
    else
      var init, last := BindingRoutes(a, bs[..|bs| - 1], g), bs[|bs| - 1];
      if Routable(last) then init + [Route(SectionOf(a.kind), last.id, TargetUrl(a, last.platform, g))] else init
  }

  function Routes(agents: seq<Agent>, g: WebhookResolver): seq<Route> {
    if agents == [] then []
    else
      var init, last := Routes(agents[..|agents| - 1], g), agents[|agents| - 1];
      if last.paused then init else init + BindingRoutes(last, last.bindings, g)
  }

  /** One table of routing.json: later routes overwrite earlier ones. */
  function Table(rs: seq<Route>, s: Section): map<string, Url> {
    if rs == [] then map[]
    else
      var init, last := Table(rs[..|rs| - 1], s), rs[|rs| - 1];
      if last.section == s then init[last.key := last.url] else init
  }

  datatype RoutingConfig = RoutingConfig(channels: map<string, Url>, members: map<string, Url>)

  function RoutingOf(agents: seq<Agent>, g: WebhookResolver): RoutingConfig {
    RoutingConfig(Table(Routes(agents, g), Channels), Table(Routes(agents, g), Members))
  }

  method GenerateRouting(agents: seq<Agent>, g: WebhookResolver) returns (cfg: RoutingConfig)
    ensures cfg == RoutingOf(agents, g)
  {
    var channels: map<string, Url> := map[];
    var members: map<string, Url> := map[];
    ghost var rs: seq<Route> := [];
    for i := 0 to |agents|
      invariant rs == Routes(agents[..i], g)
      invariant channels == Table(rs, Channels) && members == Table(rs, Members)
    {
      var a := agents[i];
      assert agents[..i + 1][..i] == agents[..i];
      if a.paused {
        continue;
      }
      channels, members := AddAgentRoutes(a, g, channels, members, rs);
      rs := rs + BindingRoutes(a, a.bindings, g);
    }
    assert agents[..|agents|] == agents;
    cfg := RoutingConfig(channels, members);
  }

  lemma RouteAdded(rs: seq<Route>, r: Route)
    ensures forall s :: Table(rs + [r], s) == if r.section == s then Table(rs, s)[r.key := r.url] else Table(rs, s)
  {
    assert (rs + [r])[..|rs|] == rs;
  }

  /** The inner loop: the routes of one agent. */
  method AddAgentRoutes(a: Agent, g: WebhookResolver, channels0: map<string, Url>, members0: map<string, Url>, ghost before: seq<Route>)
      returns (channels: map<string, Url>, members: map<string, Url>)
    requires channels0 == Table(before, Channels) && members0 == Table(before, Members)
    ensures channels == Table(before + BindingRoutes(a, a.bindings, g), Channels)
    ensures members == Table(before + BindingRoutes(a, a.bindings, g), Members)
  {
    channels, members := channels0, members0;
    ghost var rs := before;
    for j := 0 to |a.bindings|
      invariant rs == before + BindingRoutes(a, a.bindings[..j], g)
      invariant channels == Table(rs, Channels) && members == Table(rs, Members)
    {
      var b := a.bindings[j];
      assert a.bindings[..j + 1][..j] == a.bindings[..j];
      if !Registered(b.platform) {
        continue;
      }
      var url := TargetUrl(a, b.platform, g);
      if b.id != "" {
        ghost var r := Route(SectionOf(a.kind), b.id, url);
        RouteAdded(rs, r);
        rs := rs + [r];
        match a.kind
        case User => members := members[b.id := url];
        case Team => channels := channels[b.id := url];
      }
    }
    assert a.bindings[..|a.bindings|] == a.bindings;
  }

  /** The agent holds, unpaused, a binding that puts `key` into section `s`. */
  predicate Holds(a: Agent, s: Section, key: string) {
    !a.paused && SectionOf(a.kind) == s && exists i :: 0 <= i < |a.bindings| && Routable(a.bindings[i]) && a.bindings[i].id == key
  }

  /** What a table entry says: the last agent in list order that holds the key, and where it
      receives the events of a platform it is bound to under that key. */
  ghost predicate PointsAtLast(agents: seq<Agent>, g: WebhookResolver, s: Section, key: string, url: Url, i: nat) {
    && i < |agents| && Holds(agents[i], s, key)
    && (forall k :: i < k < |agents| ==> !Holds(agents[k], s, key))
    && exists j :: 0 <= j < |agents[i].bindings| && Routable(agents[i].bindings[j]) && agents[i].bindings[j].id == key
                   && url == TargetUrl(agents[i], agents[i].bindings[j].platform, g)
  }

  lemma {:induction false} TableConcat(a: seq<Route>, b: seq<Route>, s: Section)
    ensures Table(a + b, s) == Table(a, s) + Table(b, s)
  {
    if b == [] {
      assert a + b == a;
    } else {
      assert (a + b)[..|a + b| - 1] == a + b[..|b| - 1];
      TableConcat(a, b[..|b| - 1], s);
    }
  }

  lemma {:induction false} AgentTable(a: Agent, bs: seq<Binding>, g: WebhookResolver, s: Section, key: string)
    requires SectionOf(a.kind) == s
    ensures var t := Table(BindingRoutes(a, bs, g), s);
            && (key in t <==> exists i :: 0 <= i < |bs| && Routable(bs[i]) && bs[i].id == key)
            && (key in t ==> exists i :: 0 <= i < |bs| && Routable(bs[i]) && bs[i].id == key
                                         && t[key] == TargetUrl(a, bs[i].platform, g))
  {
    if bs != [] {
      var init, last := bs[..|bs| - 1], bs[|bs| - 1];
      AgentTable(a, init, g, s, key);
      assert forall i :: 0 <= i < |init| ==> init[i] == bs[i];
      if Routable(last) {
        var rs := BindingRoutes(a, bs, g);
        assert rs[..|rs| - 1] == BindingRoutes(a, init, g);
        if last.id == key {
          assert bs[|bs| - 1].id == key;
        }
      }
    }
  }

  lemma {:induction false} OtherTable(a: Agent, bs: seq<Binding>, g: WebhookResolver, s: Section)
    requires SectionOf(a.kind) != s
    ensures Table(BindingRoutes(a, bs, g), s) == map[]
  {
    if bs != [] {
      OtherTable(a, bs[..|bs| - 1], g, s);
      var rs := BindingRoutes(a, bs, g);
      if Routable(bs[|bs| - 1]) {
        assert rs[..|rs| - 1] == BindingRoutes(a, bs[..|bs| - 1], g);
      }
    }
  }

  /** The tables hold exactly the bound IDs of unpaused agents, and every URL is that of the
      last such agent in list order, in every topology. */
  lemma {:induction false} RoutingMeaning(agents: seq<Agent>, g: WebhookResolver, s: Section, key: string)
    ensures var t := Table(Routes(agents, g), s);
            && (key in t <==> exists i :: 0 <= i < |agents| && Holds(agents[i], s, key))
            && (key in t ==> exists i: nat :: PointsAtLast(agents, g, s, key, t[key], i))
  {
    if agents != [] {
      var init, last := agents[..|agents| - 1], agents[|agents| - 1];
      RoutingMeaning(init, g, s, key);
      assert forall i :: 0 <= i < |init| ==> init[i] == agents[i];
      if last.paused {
        MeaningSkips(init, agents, g, s, key);
      } else {
        TableConcat(Routes(init, g), BindingRoutes(last, last.bindings, g), s);
        if SectionOf(last.kind) == s {
          AgentTable(last, last.bindings, g, s, key);
        } else {
          OtherTable(last, last.bindings, g, s);
        }
        if !Holds(last, s, key) {
          MeaningSkips(init, agents, g, s, key);
        } else {
          assert PointsAtLast(agents, g, s, key, Table(Routes(agents, g), s)[key], |agents| - 1);
        }
      }
    }
  }

  /** Users' IDs go to the members table, teams' to the channels table; an empty ID, an unknown
      platform or a paused agent to none. */
  lemma RoutedExactly(agents: seq<Agent>, g: WebhookResolver, key: string)
    ensures key in RoutingOf(agents, g).members <==> key != "" && exists a :: a in agents && a.kind == User && Reaches(a, key)
    ensures key in RoutingOf(agents, g).channels <==> key != "" && exists a :: a in agents && a.kind != User && Reaches(a, key)
  {
    RoutingMeaning(agents, g, Members, key);
    RoutingMeaning(agents, g, Channels, key);
    forall i | 0 <= i < |agents|
      ensures Holds(agents[i], SectionOf(agents[i].kind), key) <==> key != "" && Reaches(agents[i], key)
    {
      var a := agents[i];
      if key != "" && Reaches(a, key) {
        var b :| b in a.bindings && b.id == key && (b.platform == "slack" || b.platform == "telegram");
        var k :| 0 <= k < |a.bindings| && a.bindings[k] == b;
      }
    }
    forall a | a in agents
      ensures exists i :: 0 <= i < |agents| && agents[i] == a
    {
    }
  }

  predicate Reaches(a: Agent, key: string) {
    !a.paused && exists b :: b in a.bindings && b.id == key && (b.platform == "slack" || b.platform == "telegram")
  }

  /** An agent that does not hold the key changes nothing about who does. */
  lemma MeaningSkips(init: seq<Agent>, agents: seq<Agent>, g: WebhookResolver, s: Section, key: string)
    requires agents != [] && init == agents[..|agents| - 1] && !Holds(agents[|agents| - 1], s, key)
    ensures (exists i :: 0 <= i < |init| && Holds(init[i], s, key))
            <==> exists i :: 0 <= i < |agents| && Holds(agents[i], s, key)
    ensures forall url, i: nat :: PointsAtLast(init, g, s, key, url, i) ==> PointsAtLast(agents, g, s, key, url, i)
  {
    assert forall i :: 0 <= i < |init| ==> init[i] == agents[i];
    forall url, i: nat | PointsAtLast(init, g, s, key, url, i)
      ensures PointsAtLast(agents, g, s, key, url, i)
    {
      assert init[i] == agents[i];
      forall k | i < k < |agents|
        ensures !Holds(agents[k], s, key)
      {
        if k < |init| {
          assert agents[k] == init[k];
        }
      }
    }
  }
}
