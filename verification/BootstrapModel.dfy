/** Values and reference semantics of a manifest bootstrap (pkg/manifest/bootstrap.go): the
    state a run works on, and what one uninterrupted run of a manifest makes of it. */
module BootstrapModel {
  import opened Optional
  import opened Network

  // ---- The environment ----

  datatype Binding = Binding(platform: string, id: string, caption: string)

  datatype Agent = Agent(name: string, team: bool, port: int, iam: string, bindings: seq<Binding>)

  datatype World = World(
    setup: Option<string>,
    agents: seq<Agent>,
    secrets: map<(string, string), string>,
    channels: map<string, map<string, string>>,
    policy: Option<string>)

  /** What the provider refuses on its own account, whatever the transport does. */
  datatype Rules = Rules(
    setup: string -> bool,
    provision: Agent -> bool,
    channel: (string, map<string, string>) -> bool,
    bind: (Agent, Binding) -> bool,
    policy: string -> bool)

  // ---- The manifest ----

  datatype ManifestAgent = ManifestAgent(name: string, team: bool, iam: string, secrets: map<string, string>)

  datatype ManifestBinding = ManifestBinding(agent: string, id: string, caption: string)

  datatype ManifestChannel = ManifestChannel(platform: string, secrets: map<string, string>, bindings: seq<ManifestBinding>)

  datatype Manifest = Manifest(
    setup: Option<string>,
    agents: seq<ManifestAgent>,
    channels: seq<ManifestChannel>,
    policy: Option<string>)

  /** The part of manifest validation the run relies on: no agent and no platform is listed
      twice. */
  ghost predicate Valid(m: Manifest) {
    && DistinctNames(m.agents)
    && forall i, j :: 0 <= i < j < |m.channels| ==> m.channels[i].platform != m.channels[j].platform
  }

  ghost predicate DistinctNames(ms: seq<ManifestAgent>) {
    forall i, j :: 0 <= i < j < |ms| ==> ms[i].name != ms[j].name
  }

  /** A binding the manifest asks for. */
  datatype Want = Want(agent: string, binding: Binding)

  function WantsOf(platform: string, bs: seq<ManifestBinding>): seq<Want> {
    seq(|bs|, i requires 0 <= i < |bs| => Want(bs[i].agent, Binding(platform, bs[i].id, bs[i].caption)))
  }

  function Wants(chans: seq<ManifestChannel>): seq<Want> {
    if chans == [] then []
    else Wants(chans[..|chans| - 1]) + WantsOf(chans[|chans| - 1].platform, chans[|chans| - 1].bindings)
  }

  // ---- Agents ----

  predicate Exists(agents: seq<Agent>, name: string) {
    exists i :: 0 <= i < |agents| && agents[i].name == name
  }

  function Ports(agents: seq<Agent>): seq<PortHolder> {
    seq(|agents|, i requires 0 <= i < |agents| => PortHolder(agents[i].name, agents[i].port))
  }

  function NewAgent(agents: seq<Agent>, a: ManifestAgent): Agent {
    Agent(a.name, a.team, NextPort(Ports(agents)), a.iam, [])
  }

  function ProvisionAll(r: Rules, agents: seq<Agent>, ms: seq<ManifestAgent>): (seq<Agent>, bool)
    decreases |ms|
  {
    if ms == [] then (agents, true)
    else if Exists(agents, ms[0].name) then ProvisionAll(r, agents, ms[1..])
    else if r.provision(NewAgent(agents, ms[0])) then
      ProvisionAll(r, agents + [NewAgent(agents, ms[0])], ms[1..])
    else (agents, false)
  }

  ghost predicate AllExist(agents: seq<Agent>, ms: seq<ManifestAgent>) {
    forall i :: 0 <= i < |ms| ==> Exists(agents, ms[i].name)
  }

  lemma {:induction false} SkipExisting(r: Rules, agents: seq<Agent>, ms: seq<ManifestAgent>, k: nat)
    requires k <= |ms| && AllExist(agents, ms[..k])
    ensures ProvisionAll(r, agents, ms) == ProvisionAll(r, agents, ms[k..])
  {
    if k > 0 {
      assert ms[..k][0] == ms[0];
      assert ms[1..][..k - 1] == ms[..k][1..];
      assert ms[1..][k - 1..] == ms[k..];
      SkipExisting(r, agents, ms[1..], k - 1);
    } else {
      assert ms[0..] == ms;
    }
  }

  /** Provisioning only appends, and a complete pass leaves every agent of the manifest there. */
  lemma {:induction false} ProvisionedAll(r: Rules, agents: seq<Agent>, ms: seq<ManifestAgent>)
    ensures var (after, ok) := ProvisionAll(r, agents, ms);
            agents <= after && (ok ==> AllExist(after, ms))
    decreases |ms|
  {
    if ms != [] {
      var next := if Exists(agents, ms[0].name) then agents else agents + [NewAgent(agents, ms[0])];
      var (after, ok) := ProvisionAll(r, agents, ms);
      if next == agents || r.provision(NewAgent(agents, ms[0])) {
        ProvisionedAll(r, next, ms[1..]);
        assert Exists(next, ms[0].name) by {
          if next != agents {
            assert next[|agents|].name == ms[0].name;
          }
        }
        if ok {
          ExistsGrows(next, after, ms[0].name);
          assert forall i :: 1 <= i < |ms| ==> ms[i] == ms[1..][i - 1];
        }
      }
    }
  }

  lemma ExistsGrows(a: seq<Agent>, b: seq<Agent>, name: string)
    requires a <= b && Exists(a, name)
    ensures Exists(b, name)
  {
    var i :| 0 <= i < |a| && a[i].name == name;
    assert b[i] == a[i];
  }

  // ---- Secrets ----

  function OwnSecrets(a: ManifestAgent): map<(string, string), string> {
    map k | k in a.secrets :: (a.name, k) := a.secrets[k]
  }

  function AllSecrets(ms: seq<ManifestAgent>): map<(string, string), string> {
    if ms == [] then map[] else AllSecrets(ms[..|ms| - 1]) + OwnSecrets(ms[|ms| - 1])
  }

  // ---- Channels ----

  function AddAll(r: Rules, channels: map<string, map<string, string>>, chans: seq<ManifestChannel>)
      : (map<string, map<string, string>>, bool)
    decreases |chans|
  {
    if chans == [] then (channels, true)
    else if chans[0].platform in channels then AddAll(r, channels, chans[1..])
    else if r.channel(chans[0].platform, chans[0].secrets) then
      AddAll(r, channels[chans[0].platform := chans[0].secrets], chans[1..])
    else (channels, false)
  }

  ghost predicate AllConfigured(channels: map<string, map<string, string>>, chans: seq<ManifestChannel>) {
    forall i :: 0 <= i < |chans| ==> chans[i].platform in channels
  }

  lemma {:induction false} SkipConfigured(r: Rules, channels: map<string, map<string, string>>,
                                          chans: seq<ManifestChannel>, k: nat)
    requires k <= |chans| && AllConfigured(channels, chans[..k])
    ensures AddAll(r, channels, chans) == AddAll(r, channels, chans[k..])
  {
    if k > 0 {
      assert chans[..k][0] == chans[0];
      assert chans[1..][..k - 1] == chans[..k][1..];
      assert chans[1..][k - 1..] == chans[k..];
      SkipConfigured(r, channels, chans[1..], k - 1);
    } else {
      assert chans[0..] == chans;
    }
  }

  lemma {:induction false} AddedAll(r: Rules, channels: map<string, map<string, string>>, chans: seq<ManifestChannel>)
    ensures var (after, ok) := AddAll(r, channels, chans);
            channels.Keys <= after.Keys && (ok ==> AllConfigured(after, chans))
    decreases |chans|
  {
    if chans != [] {
      if chans[0].platform in channels {
        AddedAll(r, channels, chans[1..]);
      } else if r.channel(chans[0].platform, chans[0].secrets) {
        AddedAll(r, channels[chans[0].platform := chans[0].secrets], chans[1..]);
      }
      assert forall i :: 1 <= i < |chans| ==> chans[i] == chans[1..][i - 1];
    }
  }

  // ---- Bindings ----

  /** The index GetAgent finds: the first record of that name. */
  function IndexOf(agents: seq<Agent>, name: string): (i: nat)
    ensures i <= |agents|
    ensures i < |agents| ==> agents[i].name == name
    ensures i == |agents| <==> !Exists(agents, name)
  {
    if agents == [] then 0
    else if agents[0].name == name then
      assert agents[0].name == name;
      0
    else
      var rest := IndexOf(agents[1..], name);
      assert forall k :: 0 <= k < |agents| - 1 ==> agents[1..][k] == agents[k + 1];
      rest + 1
  }

  predicate Has(a: Agent, b: Binding) {
    exists i :: 0 <= i < |a.bindings| && a.bindings[i].platform == b.platform && a.bindings[i].id == b.id
  }

  predicate HasPlatform(a: Agent, platform: string) {
    exists i :: 0 <= i < |a.bindings| && a.bindings[i].platform == platform
  }

  predicate IsBound(agents: seq<Agent>, w: Want) {
    IndexOf(agents, w.agent) < |agents| && Has(agents[IndexOf(agents, w.agent)], w.binding)
  }

  predicate CanBind(r: Rules, agents: seq<Agent>, platforms: set<string>, w: Want) {
    var i := IndexOf(agents, w.agent);
    && i < |agents|
    && w.binding.platform in platforms
    && !HasPlatform(agents[i], w.binding.platform)
    && r.bind(agents[i], w.binding)
  }

  function Bind(agents: seq<Agent>, w: Want): seq<Agent>
    requires Exists(agents, w.agent)
  {
    var i := IndexOf(agents, w.agent);
    agents[i := agents[i].(bindings := agents[i].bindings + [w.binding])]
  }

  function BindAll(r: Rules, agents: seq<Agent>, platforms: set<string>, ws: seq<Want>): (seq<Agent>, bool)
    decreases |ws|
  {
    if ws == [] then (agents, true)
    else if IsBound(agents, ws[0]) then BindAll(r, agents, platforms, ws[1..])
    else if CanBind(r, agents, platforms, ws[0]) then BindAll(r, Bind(agents, ws[0]), platforms, ws[1..])
    else (agents, false)
  }

  ghost predicate AllBound(agents: seq<Agent>, ws: seq<Want>) {
    forall i :: 0 <= i < |ws| ==> IsBound(agents, ws[i])
  }

  lemma {:induction false} SkipBound(r: Rules, agents: seq<Agent>, platforms: set<string>, ws: seq<Want>, k: nat)
    requires k <= |ws| && AllBound(agents, ws[..k])
    ensures BindAll(r, agents, platforms, ws) == BindAll(r, agents, platforms, ws[k..])
  {
    if k > 0 {
      assert ws[..k][0] == ws[0];
      assert ws[1..][..k - 1] == ws[..k][1..];
      assert ws[1..][k - 1..] == ws[k..];
      SkipBound(r, agents, platforms, ws[1..], k - 1);
    } else {
      assert ws[0..] == ws;
    }
  }

  function Names(agents: seq<Agent>): (names: seq<string>)
    ensures |names| == |agents| && forall i :: 0 <= i < |agents| ==> names[i] == agents[i].name
  {
    seq(|agents|, i requires 0 <= i < |agents| => agents[i].name)
  }

  lemma {:induction false} SameIndex(a: seq<Agent>, b: seq<Agent>, name: string)
    requires Names(a) == Names(b)
    ensures IndexOf(a, name) == IndexOf(b, name)
  {
    if a != [] && a[0].name != name {
      SameIndex(a[1..], b[1..], name);
    }
  }

  /** A binding keeps every name in place and every binding that was there. */
  lemma BindKeeps(agents: seq<Agent>, w: Want, v: Want)
    requires Exists(agents, w.agent)
    ensures Names(agents) == Names(Bind(agents, w))
    ensures IsBound(Bind(agents, w), w)
    ensures IsBound(agents, v) ==> IsBound(Bind(agents, w), v)
  {
    var after := Bind(agents, w);
    SameIndex(agents, after, w.agent);
    SameIndex(agents, after, v.agent);
    var i := IndexOf(agents, w.agent);
    assert after[i].bindings[|agents[i].bindings|] == w.binding;
    if IsBound(agents, v) {
      var j := IndexOf(agents, v.agent);
      var k :| 0 <= k < |agents[j].bindings| && agents[j].bindings[k].platform == v.binding.platform
               && agents[j].bindings[k].id == v.binding.id;
      assert after[j].bindings[k] == agents[j].bindings[k];
    }
  }

  lemma {:induction false} BoundAll(r: Rules, agents: seq<Agent>, platforms: set<string>, ws: seq<Want>, v: Want)
    ensures var (after, ok) := BindAll(r, agents, platforms, ws);
            && Names(agents) == Names(after)
            && (IsBound(agents, v) ==> IsBound(after, v))
            && (ok ==> AllBound(after, ws))
    decreases |ws|
  {
    if ws != [] {
      var (after, ok) := BindAll(r, agents, platforms, ws);
      if IsBound(agents, ws[0]) {
        BoundAll(r, agents, platforms, ws[1..], v);
        BoundAll(r, agents, platforms, ws[1..], ws[0]);
      } else if CanBind(r, agents, platforms, ws[0]) {
        BindKeeps(agents, ws[0], v);
        BoundAll(r, Bind(agents, ws[0]), platforms, ws[1..], v);
        BoundAll(r, Bind(agents, ws[0]), platforms, ws[1..], ws[0]);
      }
      if ok {
        assert forall i :: 1 <= i < |ws| ==> ws[i] == ws[1..][i - 1];
      }
    }
  }

  /** Nobody holds two bindings of a platform, or one of a platform that is not configured. */
  ghost predicate Orderly(agents: seq<Agent>, platforms: set<string>) {
    forall i, j :: 0 <= i < |agents| && 0 <= j < |agents[i].bindings| ==>
      && agents[i].bindings[j].platform in platforms
      && forall k :: 0 <= k < j ==> agents[i].bindings[k].platform != agents[i].bindings[j].platform
  }

  /** A binding pass keeps it so, wherever it stops. */
  lemma {:induction false} BindsOrderly(r: Rules, agents: seq<Agent>, platforms: set<string>, ws: seq<Want>)
    requires Orderly(agents, platforms)
    ensures Orderly(BindAll(r, agents, platforms, ws).0, platforms)
    decreases |ws|
  {
    if ws != [] {
      if IsBound(agents, ws[0]) {
        BindsOrderly(r, agents, platforms, ws[1..]);
      } else if CanBind(r, agents, platforms, ws[0]) {
        var i := IndexOf(agents, ws[0].agent);
        assert forall j :: 0 <= j < |agents[i].bindings| ==> agents[i].bindings[j].platform != ws[0].binding.platform;
        BindsOrderly(r, Bind(agents, ws[0]), platforms, ws[1..]);
      }
    }
  }

  lemma SameNamesExist(a: seq<Agent>, b: seq<Agent>, ms: seq<ManifestAgent>)
    requires Names(a) == Names(b) && AllExist(a, ms)
    ensures AllExist(b, ms)
  {
    forall i | 0 <= i < |ms|
      ensures Exists(b, ms[i].name)
    {
      var k :| 0 <= k < |a| && a[k].name == ms[i].name;
      assert b[k].name == ms[i].name;
    }
  }

  // ---- One whole run ----

  /** There is something for a run to do. The policy section counts only while no policy
      file exists. */
  predicate Actionable(w: World, m: Manifest) {
    m.setup.Some? || m.agents != [] || m.channels != [] || (m.policy.Some? && w.policy.None?)
  }

  /** What an uninterrupted run makes of w, and whether it succeeds. */
  function Outcome(r: Rules, w: World, m: Manifest): (World, bool) {
    if Actionable(w, m) then Steps(r, w, m) else (w, false)
  }

  function Steps(r: Rules, w: World, m: Manifest): (World, bool) {
    if m.setup.Some? && !r.setup(m.setup.value) then (w, false)
    else AfterSetup(r, if m.setup.Some? then w.(setup := m.setup) else w, m)
  }

  function AfterSetup(r: Rules, w: World, m: Manifest): (World, bool) {
    var (agents, ok) := ProvisionAll(r, w.agents, m.agents);
    if !ok then (w.(agents := agents), false) else AfterAgents(r, w.(agents := agents), m)
  }

  function AfterAgents(r: Rules, w: World, m: Manifest): (World, bool) {
    AfterSecrets(r, w.(secrets := w.secrets + AllSecrets(m.agents)), m)
  }

  function AfterSecrets(r: Rules, w: World, m: Manifest): (World, bool) {
    var (channels, ok) := AddAll(r, w.channels, m.channels);
    if !ok then (w.(channels := channels), false) else AfterChannels(r, w.(channels := channels), m)
  }

  function AfterChannels(r: Rules, w: World, m: Manifest): (World, bool) {
    if m.policy.Some? && w.policy.None? then
      if r.policy(m.policy.value) then AfterPolicy(r, w.(policy := m.policy), m) else (w, false)
    else AfterPolicy(r, w, m)
  }

  function AfterPolicy(r: Rules, w: World, m: Manifest): (World, bool) {
    var (agents, ok) := BindAll(r, w.agents, w.channels.Keys, Wants(m.channels));
    (w.(agents := agents), ok)
  }

  /** The first n of the six steps (setup, agents, secrets, channels, policy, bindings) have
      nothing left to change. */
  ghost predicate Done(w: World, m: Manifest, n: nat) {
    && (n >= 1 ==> m.setup.Some? ==> w.setup == m.setup)
    && (n >= 2 ==> AllExist(w.agents, m.agents))
    && (n >= 3 ==> w.secrets + AllSecrets(m.agents) == w.secrets)
    && (n >= 4 ==> AllConfigured(w.channels, m.channels))
    && (n >= 5 ==> m.policy.Some? ==> w.policy.Some?)
    && (n >= 6 ==> AllBound(w.agents, Wants(m.channels)))
  }

  ghost predicate Finished(w: World, m: Manifest) {
    Done(w, m, 6)
  }

  function From(r: Rules, w: World, m: Manifest, n: nat): (World, bool) {
    if n == 0 then Steps(r, w, m)
    else if n == 1 then AfterSetup(r, w, m)
    else if n == 2 then AfterAgents(r, w, m)
    else if n == 3 then AfterSecrets(r, w, m)
    else if n == 4 then AfterChannels(r, w, m)
    else if n == 5 then AfterPolicy(r, w, m)
    else (w, true)
  }

  /** Steps with nothing left to change can be skipped. */
  lemma SkipDone(r: Rules, w: World, m: Manifest, n: nat)
    requires n <= 6 && Done(w, m, n) && (m.setup.Some? && n > 0 ==> r.setup(m.setup.value))
    ensures Steps(r, w, m) == From(r, w, m, n)
  {
    if n >= 1 {
      assert m.setup.Some? ==> w.(setup := m.setup) == w;
    }
    if n >= 2 {
      SkipAgents(r, w, m);
    }
    if n >= 4 {
      SkipChannels(r, w, m);
    }
    if n >= 6 {
      var ws := Wants(m.channels);
      assert ws[..|ws|] == ws;
      SkipBound(r, w.agents, w.channels.Keys, ws, |ws|);
    }
  }

  lemma PolicyStage(r: Rules, w: World, m: Manifest)
    requires AfterPolicy(r, w, m).1
    ensures var after := AfterPolicy(r, w, m).0;
            after == w.(agents := after.agents) && Names(w.agents) == Names(after.agents)
            && AllBound(after.agents, Wants(m.channels))
  {
    BoundAll(r, w.agents, w.channels.Keys, Wants(m.channels), Want("", Binding("", "", "")));
  }

  lemma ChannelStage(r: Rules, w: World, m: Manifest)
    requires AfterSecrets(r, w, m).1
    ensures var after := AfterSecrets(r, w, m).0;
            && after == w.(agents := after.agents, channels := after.channels, policy := after.policy)
            && Names(w.agents) == Names(after.agents) && AllBound(after.agents, Wants(m.channels))
            && AllConfigured(after.channels, m.channels) && (m.policy.Some? ==> after.policy.Some?)
  {
    AddedAll(r, w.channels, m.channels);
    var w1 := w.(channels := AddAll(r, w.channels, m.channels).0);
    PolicyStage(r, if m.policy.Some? && w1.policy.None? then w1.(policy := m.policy) else w1, m);
  }

  lemma AgentStage(r: Rules, w: World, m: Manifest)
    requires AfterSetup(r, w, m).1
    ensures var after := AfterSetup(r, w, m).0; Finished(after.(setup := m.setup), m) && after.setup == w.setup
  {
    var agents := ProvisionAll(r, w.agents, m.agents).0;
    ProvisionedAll(r, w.agents, m.agents);
    var secrets := w.secrets + AllSecrets(m.agents);
    assert secrets + AllSecrets(m.agents) == secrets;
    var w1 := w.(agents := agents, secrets := secrets);
    ChannelStage(r, w1, m);
    SameNamesExist(agents, AfterSecrets(r, w1, m).0.agents, m.agents);
  }

  /** An uninterrupted run that succeeds leaves a finished state. */
  lemma SuccessFinishes(r: Rules, w: World, m: Manifest)
    requires Outcome(r, w, m).1
    ensures Finished(Outcome(r, w, m).0, m)
  {
    AgentStage(r, if m.setup.Some? then w.(setup := m.setup) else w, m);
  }

  /** A run on a finished state changes nothing; it succeeds whenever it has a step to run. */
  lemma FinishedStays(r: Rules, w: World, m: Manifest)
    requires Finished(w, m) && (m.setup.Some? ==> r.setup(m.setup.value))
    ensures Outcome(r, w, m) == (w, Actionable(w, m))
  {
    SkipDone(r, w, m, 6);
  }

  /** A manifest that is nothing but a policy seeds it once and then has no step left: its
      second run fails with nothing to do. These are the only manifests whose successful run
      cannot be repeated. */
  lemma OnlyPolicyManifestsDoNotRepeat(r: Rules, w: World, m: Manifest)
    requires Outcome(r, w, m).1
    ensures Outcome(r, Outcome(r, w, m).0, m) == (Outcome(r, w, m).0, false)
            <==> m.setup.None? && m.agents == [] && m.channels == []
    ensures m.setup.Some? || m.agents != [] || m.channels != [] ==>
              Outcome(r, Outcome(r, w, m).0, m) == Outcome(r, w, m)
  {
    SuccessFinishes(r, w, m);
    FinishedStays(r, Outcome(r, w, m).0, m);
  }

  lemma SkipAgents(r: Rules, w: World, m: Manifest)
    requires AllExist(w.agents, m.agents)
    ensures ProvisionAll(r, w.agents, m.agents) == (w.agents, true)
    ensures AfterSetup(r, w, m) == AfterAgents(r, w, m)
  {
    assert m.agents[..|m.agents|] == m.agents;
    SkipExisting(r, w.agents, m.agents, |m.agents|);
  }

  lemma SkipChannels(r: Rules, w: World, m: Manifest)
    requires AllConfigured(w.channels, m.channels)
    ensures AddAll(r, w.channels, m.channels) == (w.channels, true)
    ensures AfterSecrets(r, w, m) == AfterChannels(r, w, m)
  {
    assert m.channels[..|m.channels|] == m.channels;
    SkipConfigured(r, w.channels, m.channels, |m.channels|);
  }
}
