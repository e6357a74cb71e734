/** What a bootstrap run, completed or not, may have changed: nothing that was there but secret
    values, and everything new as the manifest has it. */
module BootstrapGrowth {
  import opened Optional
  import opened Network
  import opened BootstrapModel

  // ---- What the manifest asks for ----

  ghost predicate FromManifest(a: Agent, ms: seq<ManifestAgent>) {
    exists j :: 0 <= j < |ms| && ms[j].name == a.name && ms[j].team == a.team && ms[j].iam == a.iam
  }

  ghost predicate ManifestSecret(ms: seq<ManifestAgent>, agent: string, key: string, value: string) {
    exists j :: 0 <= j < |ms| && ms[j].name == agent && key in ms[j].secrets && ms[j].secrets[key] == value
  }

  ghost predicate IsChannel(chans: seq<ManifestChannel>, platform: string, secrets: map<string, string>) {
    exists j :: 0 <= j < |chans| && chans[j].platform == platform && chans[j].secrets == secrets
  }

  ghost predicate IsBinding(chans: seq<ManifestChannel>, agent: string, b: Binding) {
    exists i, j ::
      && 0 <= i < |chans| && 0 <= j < |chans[i].bindings|
      && agent == chans[i].bindings[j].agent
      && b == Binding(chans[i].platform, chans[i].bindings[j].id, chans[i].bindings[j].caption)
  }

  /** The flat list of bindings is that of the manifest, platform by platform. */
  lemma {:induction false} WantsMeaning(chans: seq<ManifestChannel>, agent: string, b: Binding)
    ensures Want(agent, b) in Wants(chans) <==> IsBinding(chans, agent, b)
  {
    if chans != [] {
      var init, last := chans[..|chans| - 1], chans[|chans| - 1];
      WantsMeaning(init, agent, b);
      var ws := WantsOf(last.platform, last.bindings);
      if IsBinding(init, agent, b) {
        var i, j :| 0 <= i < |init| && 0 <= j < |init[i].bindings| && agent == init[i].bindings[j].agent
                    && b == Binding(init[i].platform, init[i].bindings[j].id, init[i].bindings[j].caption);
        assert chans[i] == init[i];
      }
      if Want(agent, b) in ws {
        var j :| 0 <= j < |ws| && ws[j] == Want(agent, b);
        assert chans[|chans| - 1].bindings[j].agent == agent;
      }
      if IsBinding(chans, agent, b) {
        var i, j :| 0 <= i < |chans| && 0 <= j < |chans[i].bindings| && agent == chans[i].bindings[j].agent
                    && b == Binding(chans[i].platform, chans[i].bindings[j].id, chans[i].bindings[j].caption);
        if i < |init| {
          assert init[i] == chans[i];
        } else {
          assert ws[j] == Want(agent, b);
        }
      }
    }
  }

  /** With distinct agents the secrets of a manifest are those of its entries, under their names. */
  lemma {:induction false} SecretsMeaning(ms: seq<ManifestAgent>, agent: string, key: string, value: string)
    requires DistinctNames(ms)
    ensures (agent, key) in AllSecrets(ms) && AllSecrets(ms)[(agent, key)] == value <==> ManifestSecret(ms, agent, key, value)
  {
    if ms != [] {
      var init, last := ms[..|ms| - 1], ms[|ms| - 1];
      SecretsMeaning(init, agent, key, value);
      assert forall j :: 0 <= j < |init| ==> init[j] == ms[j];
      if agent == last.name && key in last.secrets {
        assert (agent, key) in OwnSecrets(last) && OwnSecrets(last)[(agent, key)] == last.secrets[key];
        assert ms[|ms| - 1].name == agent;
      } else {
        assert (agent, key) !in OwnSecrets(last);
      }
    }
  }

  // ---- Agents ----

  ghost predicate DistinctPorts(agents: seq<Agent>) {
    forall i, j :: 0 <= i < j < |agents| ==> agents[i].port != agents[j].port
  }

  /** The record is the same, but for further bindings that are wanted. */
  ghost predicate Kept(a: Agent, b: Agent, ws: seq<Want>) {
    && b == a.(bindings := b.bindings) && a.bindings <= b.bindings
    && forall k :: |a.bindings| <= k < |b.bindings| ==> Want(b.name, b.bindings[k]) in ws
  }

  ghost predicate New(a: Agent, ms: seq<ManifestAgent>, ws: seq<Want>) {
    && FromManifest(a, ms)
    && forall k :: 0 <= k < |a.bindings| ==> Want(a.name, a.bindings[k]) in ws
  }

  ghost predicate AgentsGrown(a: seq<Agent>, b: seq<Agent>, ms: seq<ManifestAgent>, ws: seq<Want>) {
    && |a| <= |b|
    && (forall i :: 0 <= i < |a| ==> Kept(a[i], b[i], ws))
    && (forall i :: |a| <= i < |b| ==> New(b[i], ms, ws))
    && (DistinctPorts(a) ==> DistinctPorts(b))
  }

  lemma AgentsGrownTransitive(a: seq<Agent>, b: seq<Agent>, c: seq<Agent>, ms: seq<ManifestAgent>, ws: seq<Want>)
    requires AgentsGrown(a, b, ms, ws) && AgentsGrown(b, c, ms, ws)
    ensures AgentsGrown(a, c, ms, ws)
  {
    forall i | 0 <= i < |a|
      ensures Kept(a[i], c[i], ws)
    {
      assert Kept(a[i], b[i], ws) && Kept(b[i], c[i], ws);
      KeptTransitive(a[i], b[i], c[i], ws);
    }
    forall i | |a| <= i < |c|
      ensures New(c[i], ms, ws)
    {
      if i < |b| {
        NewKept(b[i], c[i], ms, ws);
      }
    }
  }

  lemma KeptTransitive(a: Agent, b: Agent, c: Agent, ws: seq<Want>)
    requires Kept(a, b, ws) && Kept(b, c, ws)
    ensures Kept(a, c, ws)
  {
    forall k | |a.bindings| <= k < |c.bindings|
      ensures Want(c.name, c.bindings[k]) in ws
    {
      if k < |b.bindings| {
        assert c.bindings[k] == b.bindings[k];
      }
    }
  }

  lemma NewKept(a: Agent, b: Agent, ms: seq<ManifestAgent>, ws: seq<Want>)
    requires New(a, ms, ws) && Kept(a, b, ws)
    ensures New(b, ms, ws)
  {
    forall k | 0 <= k < |b.bindings|
      ensures Want(b.name, b.bindings[k]) in ws
    {
      if k < |a.bindings| {
        assert b.bindings[k] == a.bindings[k];
      }
    }
    var j :| 0 <= j < |ms| && ms[j].name == a.name && ms[j].team == a.team && ms[j].iam == a.iam;
    assert ms[j].name == b.name;
  }

  /** A provision takes the manifest's type and identity and a port nobody holds. */
  lemma ProvisionGrows(a: seq<Agent>, b: seq<Agent>, ms: seq<ManifestAgent>, ws: seq<Want>, j: nat)
    requires AgentsGrown(a, b, ms, ws) && j < |ms|
    ensures AgentsGrown(a, b + [NewAgent(b, ms[j])], ms, ws)
  {
    var n := NewAgent(b, ms[j]);
    var c := b + [n];
    assert ms[j].name == n.name && ms[j].team == n.team && ms[j].iam == n.iam;
    forall i | 0 <= i < |b|
      ensures b[i].port != n.port
    {
      assert Ports(b)[i].port == b[i].port;
    }
  }

  /** A binding goes to one record, which stays as it is otherwise. */
  lemma BindGrows(a: seq<Agent>, b: seq<Agent>, w: Want, ms: seq<ManifestAgent>, ws: seq<Want>)
    requires AgentsGrown(a, b, ms, ws) && w in ws && Exists(b, w.agent)
    ensures AgentsGrown(a, BootstrapModel.Bind(b, w), ms, ws)
  {
    var c := BootstrapModel.Bind(b, w);
    forall i | 0 <= i < |b|
      ensures Kept(b[i], c[i], ws)
    {
    }
    assert AgentsGrown(b, c, ms, ws);
    AgentsGrownTransitive(a, b, c, ms, ws);
  }

  /** The uninterrupted provisioning pass grows the fleet like any other. */
  lemma {:induction false} ProvisionAllGrows(r: Rules, agents: seq<Agent>, ms: seq<ManifestAgent>, all: seq<ManifestAgent>, ws: seq<Want>)
    requires forall a :: a in ms ==> a in all
    ensures AgentsGrown(agents, ProvisionAll(r, agents, ms).0, all, ws)
    decreases |ms|
  {
    if ms != [] {
      assert ms[0] in all;
      var j :| 0 <= j < |all| && all[j] == ms[0];
      assert forall a :: a in ms[1..] ==> a in ms;
      if Exists(agents, ms[0].name) {
        ProvisionAllGrows(r, agents, ms[1..], all, ws);
      } else if r.provision(NewAgent(agents, ms[0])) {
        var next := agents + [NewAgent(agents, ms[0])];
        ProvisionGrows(agents, agents, all, ws, j);
        ProvisionAllGrows(r, next, ms[1..], all, ws);
        AgentsGrownTransitive(agents, next, ProvisionAll(r, next, ms[1..]).0, all, ws);
      }
    }
  }

  // ---- Secrets and channels ----

  ghost predicate SecretsGrown(a: map<(string, string), string>, b: map<(string, string), string>, ms: seq<ManifestAgent>) {
    && a.Keys <= b.Keys
    && forall key :: key in b ==> (key in a && b[key] == a[key]) || ManifestSecret(ms, key.0, key.1, b[key])
  }

  ghost predicate SecretsGrownFrom(s0: map<(string, string), string>, s: map<(string, string), string>, ms: seq<ManifestAgent>) {
    forall a :: a == s0 ==> SecretsGrown(a, s, ms)
  }

  ghost predicate ChannelsGrown(a: map<string, map<string, string>>, b: map<string, map<string, string>>,
                                chans: seq<ManifestChannel>)
  {
    && (forall p :: p in a ==> p in b && b[p] == a[p])
    && (forall p :: p in b && p !in a ==> IsChannel(chans, p, b[p]))
  }

  lemma ChannelGrows(a: map<string, map<string, string>>, b: map<string, map<string, string>>, chans: seq<ManifestChannel>, i: nat)
    requires ChannelsGrown(a, b, chans) && i < |chans| && chans[i].platform !in b
    ensures ChannelsGrown(a, b[chans[i].platform := chans[i].secrets], chans)
  {
    var c := b[chans[i].platform := chans[i].secrets];
    assert IsChannel(chans, chans[i].platform, chans[i].secrets);
  }

  // ---- The whole state ----

  /** What may have become of a state in any run of a manifest, or in several. */
  ghost predicate Grown(a: World, b: World, m: Manifest) {
    && (b.setup == a.setup || (m.setup.Some? && b.setup == m.setup))
    && AgentsGrown(a.agents, b.agents, m.agents, Wants(m.channels))
    && SecretsGrown(a.secrets, b.secrets, m.agents)
    && ChannelsGrown(a.channels, b.channels, m.channels)
    && (b.policy == a.policy || (a.policy.None? && m.policy.Some? && b.policy == m.policy))
  }

  /** The same, in a form that calls pass on without looking inside. */
  ghost predicate GrownFrom(w0: World, w: World, m: Manifest) {
    forall a :: a == w0 ==> Grown(a, w, m)
  }

  lemma GrownReflexive(a: World, m: Manifest)
    ensures GrownFrom(a, a, m)
  {
  }

  lemma GrownTransitive(a: World, b: World, c: World, m: Manifest)
    requires GrownFrom(a, b, m) && GrownFrom(b, c, m)
    ensures GrownFrom(a, c, m)
  {
    assert Grown(a, b, m) && Grown(b, c, m);
    AgentsGrownTransitive(a.agents, b.agents, c.agents, m.agents, Wants(m.channels));
  }

  /** One component has changed, as it may. */
  lemma GrownAgents(w0: World, w: World, m: Manifest)
    requires w == w0.(agents := w.agents) && AgentsGrown(w0.agents, w.agents, m.agents, Wants(m.channels))
    ensures GrownFrom(w0, w, m)
  {
  }

  lemma GrownSecrets(w0: World, w: World, m: Manifest)
    requires w == w0.(secrets := w.secrets) && SecretsGrownFrom(w0.secrets, w.secrets, m.agents)
    ensures GrownFrom(w0, w, m)
  {
    assert SecretsGrown(w0.secrets, w.secrets, m.agents);
  }

  lemma GrownChannels(w0: World, w: World, m: Manifest)
    requires w == w0.(channels := w.channels) && ChannelsGrown(w0.channels, w.channels, m.channels)
    ensures GrownFrom(w0, w, m)
  {
  }

  lemma GrownPolicy(w0: World, w: World, m: Manifest)
    requires w == w0 || (w0.policy.None? && m.policy.Some? && w == w0.(policy := m.policy))
    ensures GrownFrom(w0, w, m)
  {
  }

  lemma GrownSetup(w0: World, w: World, m: Manifest)
    requires w == w0 || (m.setup.Some? && w == w0.(setup := m.setup))
    ensures GrownFrom(w0, w, m)
  {
  }

  /** What a finished state holds that has grown from another: every agent of the manifest, with
      its type and identity if it is new; every secret with its value; every platform; every binding, by
      platform and ID; the manifest's setup; and its policy unless there was one. */
  lemma FinishedContents(w0: World, w: World, m: Manifest)
    requires Valid(m) && Finished(w, m) && Grown(w0, w, m)
    ensures forall j :: 0 <= j < |m.agents| ==> Exists(w.agents, m.agents[j].name)
    ensures forall agent, key, value :: ManifestSecret(m.agents, agent, key, value) ==>
              (agent, key) in w.secrets && w.secrets[(agent, key)] == value
    ensures forall j :: 0 <= j < |m.channels| ==> m.channels[j].platform in w.channels
    ensures forall agent, b :: IsBinding(m.channels, agent, b) ==>
              exists i :: 0 <= i < |w.agents| && w.agents[i].name == agent
                          && exists j :: 0 <= j < |w.agents[i].bindings|
                                         && w.agents[i].bindings[j].platform == b.platform && w.agents[i].bindings[j].id == b.id
    ensures m.setup.Some? ==> w.setup == m.setup
    ensures m.policy.Some? ==> w.policy == if w0.policy.Some? then w0.policy else m.policy
  {
    forall agent, key, value | ManifestSecret(m.agents, agent, key, value)
      ensures (agent, key) in w.secrets && w.secrets[(agent, key)] == value
    {
      SecretsMeaning(m.agents, agent, key, value);
      assert (w.secrets + AllSecrets(m.agents))[(agent, key)] == value;
    }
    forall agent, b | IsBinding(m.channels, agent, b)
      ensures exists i :: 0 <= i < |w.agents| && w.agents[i].name == agent
                          && exists j :: 0 <= j < |w.agents[i].bindings|
                                         && w.agents[i].bindings[j].platform == b.platform && w.agents[i].bindings[j].id == b.id
    {
      WantsMeaning(m.channels, agent, b);
      var ws := Wants(m.channels);
      var k :| 0 <= k < |ws| && ws[k] == Want(agent, b);
      assert IsBound(w.agents, ws[k]);
      assert w.agents[IndexOf(w.agents, agent)].name == agent;
    }
  }
}
