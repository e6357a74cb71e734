/** The bootstrap step loop (pkg/manifest/bootstrap.go) against a provider on which any call
    can fail before it is applied, or after. */
module Bootstrap {
  import opened Optional
  import opened BootstrapModel
  import opened BootstrapGrowth

  datatype Fault = Works | NotDelivered | ReplyLost

  datatype Call = Read | SetUp | Provision | SetSecret | AddChannel | Bind | SavePolicy | Refresh

  class Provider {
    const rules: Rules
    const script: nat -> Fault
    var w: World
    var clock: nat
    ghost var log: seq<Call>

    constructor (rules: Rules, script: nat -> Fault, w: World)
      ensures this.rules == rules && this.script == script && this.w == w && clock == 0 && log == []
    {
      this.rules, this.script, this.w, this.clock, this.log := rules, script, w, 0, [];
    }

    /** Every call takes one tick, during which it is applied (to `after`) or not. */
    method Tick(call: Call, allowed: bool, after: World) returns (ok: bool)
      modifies this
      ensures clock == old(clock) + 1 && log == old(log) + [call]
      ensures ok ==> allowed && w == after
      ensures w == old(w) || (allowed && w == after)
      ensures script(old(clock)) == Works ==> ok == allowed && w == if allowed then after else old(w)
    {
      var f := script(clock);
      clock := clock + 1;
      log := log + [call];
      if allowed && f != NotDelivered {
        w := after;
      }
      ok := allowed && f == Works;
    }
  }

  ghost predicate Healthy(script: nat -> Fault, t: nat) {
    forall k: nat :: k >= t ==> script(k) == Works
  }

  /** Between two logs nothing was provisioned, no channel added and nothing bound. */
  ghost predicate NoCreation(before: seq<Call>, after: seq<Call>) {
    && before <= after
    && forall i :: |before| <= i < |after| ==> after[i] != Provision && after[i] != AddChannel && after[i] != Bind
  }

  lemma NoCreationTransitive(a: seq<Call>, b: seq<Call>, c: seq<Call>)
    requires NoCreation(a, b) && NoCreation(b, c)
    ensures NoCreation(a, c)
  {
    forall i | |a| <= i < |c|
      ensures c[i] != Provision && c[i] != AddChannel && c[i] != Bind
    {
      if i < |b| {
        assert c[i] == b[i];
      }
    }
  }

  // ---- Agents ----

  /** One agent further: either it was there, or it has just been appended. */
  lemma AgentDone(r: Rules, agents: seq<Agent>, next: seq<Agent>, ms: seq<ManifestAgent>, i: nat)
    requires i < |ms| && AllExist(agents, ms[..i])
    requires if Exists(agents, ms[i].name) then next == agents
             else r.provision(NewAgent(agents, ms[i])) && next == agents + [NewAgent(agents, ms[i])]
    ensures AllExist(next, ms[..i + 1])
    ensures ProvisionAll(r, next, ms[i + 1..]) == ProvisionAll(r, agents, ms[i..])
    ensures ProvisionAll(r, next, ms) == ProvisionAll(r, next, ms[i + 1..])
  {
    assert ms[i..][0] == ms[i] && ms[i..][1..] == ms[i + 1..];
    var done := ms[..i + 1];
    forall k | 0 <= k < |done|
      ensures Exists(next, done[k].name)
    {
      if k < i {
        assert ms[..i][k] == ms[k];
        ExistsGrows(agents, next, ms[k].name);
      } else if next != agents {
        assert next[|agents|].name == ms[i].name;
      }
    }
    SkipExisting(r, next, ms, i + 1);
  }

  method AgentExists(p: Provider, name: string) returns (found: bool, ok: bool)
    modifies p
    ensures p.w == old(p.w) && p.clock == old(p.clock) + 1 && p.log == old(p.log) + [Read]
    ensures ok ==> (found <==> Exists(p.w.agents, name))
    ensures p.script(old(p.clock)) == Works ==> ok
  {
    ok := p.Tick(Read, true, p.w);
    found := false;
    if !ok {
      return;
    }
    var agents := p.w.agents;
    for i := 0 to |agents|
      invariant forall j :: 0 <= j < i ==> agents[j].name != name
    {
      if agents[i].name == name {
        return true, ok;
      }
    }
  }

  method BootstrapAgents(p: Provider, ms: seq<ManifestAgent>) returns (ok: bool)
    modifies p
    ensures p.w == old(p.w).(agents := p.w.agents) && p.clock >= old(p.clock) && old(p.log) <= p.log
    ensures ProvisionAll(p.rules, p.w.agents, ms) == ProvisionAll(p.rules, old(p.w.agents), ms)
    ensures ok ==> AllExist(p.w.agents, ms)
    ensures Healthy(p.script, old(p.clock)) && !ok ==>
              ProvisionAll(p.rules, old(p.w.agents), ms) == (p.w.agents, false)
    ensures AllExist(old(p.w.agents), ms) ==> p.w == old(p.w) && NoCreation(old(p.log), p.log)
    ensures forall ws :: AgentsGrown(old(p.w.agents), p.w.agents, ms, ws)
  {
    ghost var w0, r := p.w, p.rules;
    ghost var total := ProvisionAll(r, w0.agents, ms);
    assert ms[0..] == ms;
    for i := 0 to |ms|
      invariant p.w == w0.(agents := p.w.agents) && p.clock >= old(p.clock) && old(p.log) <= p.log
      invariant AllExist(p.w.agents, ms[..i])
      invariant ProvisionAll(r, p.w.agents, ms[i..]) == total
      invariant AllExist(w0.agents, ms) ==> p.w == w0 && NoCreation(old(p.log), p.log)
      invariant forall ws :: AgentsGrown(w0.agents, p.w.agents, ms, ws)
    {
      ghost var agents := p.w.agents;
      SkipExisting(r, agents, ms, i);
      assert ms[i..][0] == ms[i];
      var found, read := AgentExists(p, ms[i].name);
      if !read {
        return false;
      }
      if found {
        AgentDone(r, agents, agents, ms, i);
        continue;
      }
      var listed := p.Tick(Read, true, p.w);
      if !listed {
        return false;
      }
      var a := NewAgent(p.w.agents, ms[i]);
      var done := p.Tick(Provision, p.rules.provision(a), p.w.(agents := p.w.agents + [a]));
      if p.w.agents != agents {
        AgentDone(r, agents, p.w.agents, ms, i);
        forall ws
          ensures AgentsGrown(w0.agents, p.w.agents, ms, ws)
        {
          ProvisionGrows(w0.agents, agents, ms, ws, i);
        }
      }
      if !done {
        return false;
      }
    }
    assert ms[..|ms|] == ms;
    SkipExisting(r, p.w.agents, ms, |ms|);
    ok := true;
  }

  // ---- Secrets ----

  type Secrets = map<(string, string), string>

  /** `s` is `base` with some entries of `whole` set. */
  ghost predicate Partial(base: Secrets, s: Secrets, whole: Secrets) {
    && base.Keys <= s.Keys <= base.Keys + whole.Keys
    && (forall k :: k in s ==> (k in base && s[k] == base[k]) || (k in whole && s[k] == whole[k]))
    && forall k :: k in base && k !in whole ==> s[k] == base[k]
  }

  /** Whatever part was set, setting the whole gives the same as if nothing had been. */
  lemma PartialAbsorbed(base: Secrets, s: Secrets, whole: Secrets, all: Secrets)
    requires Partial(base, s, whole) && whole.Keys <= all.Keys
    ensures s + all == base + all
  {
  }

  lemma PartialComplete(base: Secrets, s: Secrets, whole: Secrets)
    requires Partial(base, s, whole) && forall k :: k in whole ==> k in s && s[k] == whole[k]
    ensures s == base + whole
  {
  }

  lemma {:induction false} SecretKeys(ms: seq<ManifestAgent>, i: nat)
    requires i < |ms|
    ensures OwnSecrets(ms[i]).Keys <= AllSecrets(ms).Keys
    ensures AllSecrets(ms[..i]).Keys <= AllSecrets(ms).Keys
  {
    if i < |ms| - 1 {
      SecretKeys(ms[..|ms| - 1], i);
      assert ms[..|ms| - 1][..i] == ms[..i];
    }
  }

  /** With distinct agents no secret of the manifest overrides another. */
  lemma {:induction false} OwnInAll(ms: seq<ManifestAgent>, i: nat)
    requires i < |ms| && DistinctNames(ms)
    ensures forall k :: k in OwnSecrets(ms[i]) ==> k in AllSecrets(ms) && AllSecrets(ms)[k] == OwnSecrets(ms[i])[k]
  {
    if i < |ms| - 1 {
      OwnInAll(ms[..|ms| - 1], i);
    }
  }

  /** Setting secrets to the values they have changes nothing. */
  lemma SetAgain(s: Secrets, own: Secrets, all: Secrets)
    requires forall k :: k in own ==> k in all && all[k] == own[k]
    requires s + all == s
    ensures s + own == s
  {
    assert forall k :: k in all ==> (s + all)[k] == all[k];
  }

  /** The secrets of one agent, in whatever order the map is walked. */
  method SetAgentSecrets(p: Provider, a: ManifestAgent) returns (ok: bool)
    modifies p
    ensures p.w == old(p.w).(secrets := p.w.secrets) && p.clock >= old(p.clock)
    ensures NoCreation(old(p.log), p.log)
    ensures Partial(old(p.w.secrets), p.w.secrets, OwnSecrets(a))
    ensures ok ==> p.w.secrets == old(p.w.secrets) + OwnSecrets(a)
    ensures old(p.w.secrets) + OwnSecrets(a) == old(p.w.secrets) ==> p.w == old(p.w)
    ensures Healthy(p.script, old(p.clock)) ==> ok
  {
    ghost var s0, whole := p.w.secrets, OwnSecrets(a);
    var todo := a.secrets.Keys;
    while todo != {}
      invariant todo <= a.secrets.Keys
      invariant Partial(s0, p.w.secrets, whole)
      invariant s0 + whole == s0 ==> p.w.secrets == s0
      invariant forall k :: k in a.secrets && k !in todo ==>
                  (a.name, k) in p.w.secrets && p.w.secrets[(a.name, k)] == a.secrets[k]
      invariant p.w == old(p.w).(secrets := p.w.secrets) && p.clock >= old(p.clock)
      invariant NoCreation(old(p.log), p.log)
      decreases todo
    {
      var k :| k in todo;
      assert (a.name, k) in whole;
      assert s0 + whole == s0 ==> s0[(a.name, k) := a.secrets[k]] == s0 by {
        if s0 + whole == s0 {
          assert (s0 + whole)[(a.name, k)] == whole[(a.name, k)];
        }
      }
      var done := p.Tick(SetSecret, true, p.w.(secrets := p.w.secrets[(a.name, k) := a.secrets[k]]));
      if !done {
        return false;
      }
      todo := todo - {k};
    }
    PartialComplete(s0, p.w.secrets, whole);
    ok := true;
  }

  lemma PartialGrows(s0: Secrets, before: Secrets, after: Secrets, ms: seq<ManifestAgent>, i: nat)
    requires SecretsGrownFrom(s0, before, ms) && i < |ms| && Partial(before, after, OwnSecrets(ms[i]))
    ensures SecretsGrownFrom(s0, after, ms)
  {
    assert SecretsGrown(s0, before, ms);
    forall key | key in after && !(key in before && after[key] == before[key])
      ensures ManifestSecret(ms, key.0, key.1, after[key])
    {
      assert key in OwnSecrets(ms[i]);
      assert ms[i].name == key.0 && key.1 in ms[i].secrets && ms[i].secrets[key.1] == after[key];
    }
  }

  lemma MergeAssociative(a: Secrets, b: Secrets, c: Secrets)
    ensures (a + b) + c == a + (b + c)
  {
  }

  /** One agent further, or part of the way through it. */
  lemma SecretsDone(s0: Secrets, written: Secrets, own: Secrets, all: Secrets, after: Secrets)
    requires written.Keys <= all.Keys && own.Keys <= all.Keys
    requires Partial(s0 + written, after, own)
    ensures after + all == s0 + all
    ensures after == (s0 + written) + own ==> after == s0 + (written + own)
  {
    assert Partial(s0, s0 + written, written);
    PartialAbsorbed(s0, s0 + written, written, all);
    PartialAbsorbed(s0 + written, after, own, all);
    MergeAssociative(s0, written, own);
  }

  lemma NextSecrets(ms: seq<ManifestAgent>, i: nat)
    requires i < |ms|
    ensures AllSecrets(ms[..i + 1]) == AllSecrets(ms[..i]) + OwnSecrets(ms[i])
    ensures AllSecrets(ms[..i]).Keys <= AllSecrets(ms).Keys && OwnSecrets(ms[i]).Keys <= AllSecrets(ms).Keys
  {
    assert ms[..i + 1][..i] == ms[..i];
    SecretKeys(ms, i);
  }

  /** The secrets of one agent, after those of the agents before it (`done`). `quiet` says that
      everything has been set before. */
  method SecretStep(p: Provider, a: ManifestAgent, ghost ms: seq<ManifestAgent>, ghost i: nat,
                    ghost s0: Secrets, ghost done: Secrets, ghost all: Secrets, ghost quiet: bool)
      returns (ok: bool)
    requires p.w.secrets == s0 + done && done.Keys <= all.Keys && OwnSecrets(a).Keys <= all.Keys
    requires quiet ==> p.w.secrets == s0 && s0 + OwnSecrets(a) == s0
    requires i < |ms| && a == ms[i] && SecretsGrownFrom(s0, p.w.secrets, ms)
    modifies p
    ensures SecretsGrownFrom(s0, p.w.secrets, ms)
    ensures p.w == old(p.w).(secrets := p.w.secrets) && p.clock >= old(p.clock)
    ensures NoCreation(old(p.log), p.log)
    ensures p.w.secrets + all == s0 + all
    ensures ok ==> p.w.secrets == s0 + (done + OwnSecrets(a))
    ensures quiet ==> p.w == old(p.w)
    ensures Healthy(p.script, old(p.clock)) ==> ok
  {
    ghost var before := p.w.secrets;
    ok := SetAgentSecrets(p, a);
    PartialGrows(s0, before, p.w.secrets, ms, i);
    SecretsDone(s0, done, OwnSecrets(a), all, p.w.secrets);
  }

  method BootstrapSecrets(p: Provider, ms: seq<ManifestAgent>) returns (ok: bool)
    modifies p
    ensures p.w == old(p.w).(secrets := p.w.secrets) && p.clock >= old(p.clock)
    ensures NoCreation(old(p.log), p.log)
    ensures p.w.secrets + AllSecrets(ms) == old(p.w.secrets) + AllSecrets(ms)
    ensures ok ==> p.w.secrets == old(p.w.secrets) + AllSecrets(ms)
    ensures DistinctNames(ms) && old(p.w.secrets) + AllSecrets(ms) == old(p.w.secrets) ==> p.w == old(p.w)
    ensures Healthy(p.script, old(p.clock)) ==> ok
    ensures SecretsGrownFrom(old(p.w.secrets), p.w.secrets, ms)
  {
    ghost var s0, all := p.w.secrets, AllSecrets(ms);
    ghost var quiet := DistinctNames(ms) && s0 + all == s0;
    ghost var done: Secrets := map[];
    for i := 0 to |ms|
      invariant p.w == old(p.w).(secrets := p.w.secrets) && p.clock >= old(p.clock)
      invariant NoCreation(old(p.log), p.log)
      invariant done == AllSecrets(ms[..i]) && p.w.secrets == s0 + done
      invariant quiet ==> p.w == old(p.w)
      invariant SecretsGrownFrom(s0, p.w.secrets, ms)
    {
      if quiet {
        OwnInAll(ms, i);
        SetAgain(s0, OwnSecrets(ms[i]), all);
      }
      NextSecrets(ms, i);
      ok := SecretStep(p, ms[i], ms, i, s0, done, all, quiet);
      if !ok {
        return;
      }
      done := done + OwnSecrets(ms[i]);
    }
    assert ms[..|ms|] == ms;
    ok := true;
    assert (s0 + all) + all == s0 + all;
  }

  // ---- Channels ----

  lemma ChannelDone(r: Rules, channels: map<string, map<string, string>>, next: map<string, map<string, string>>,
                    chans: seq<ManifestChannel>, i: nat)
    requires i < |chans| && AllConfigured(channels, chans[..i])
    requires if chans[i].platform in channels then next == channels
             else r.channel(chans[i].platform, chans[i].secrets) && next == channels[chans[i].platform := chans[i].secrets]
    ensures AllConfigured(next, chans[..i + 1])
    ensures AddAll(r, next, chans[i + 1..]) == AddAll(r, channels, chans[i..])
    ensures AddAll(r, next, chans) == AddAll(r, next, chans[i + 1..])
  {
    assert chans[i..][0] == chans[i] && chans[i..][1..] == chans[i + 1..];
    var done := chans[..i + 1];
    forall k | 0 <= k < |done|
      ensures done[k].platform in next
    {
      if k < i {
        assert chans[..i][k] == done[k];
      }
    }
    SkipConfigured(r, next, chans, i + 1);
  }

  /** A channel pass that has come to entry i: what it has touched, and what is left of `total`. */
  ghost predicate ChannelsSince(r: Rules, w0: World, w: World, log0: seq<Call>, log: seq<Call>, chans: seq<ManifestChannel>,
                                i: nat, configured: set<string>, total: (map<string, map<string, string>>, bool))
  {
    && i <= |chans| && w == w0.(channels := w.channels) && log0 <= log
    && AllConfigured(w.channels, chans[..i]) && configured <= w.channels.Keys
    && (forall k :: k in w.channels ==> k in configured || exists j :: 0 <= j < i && chans[j].platform == k)
    && (forall rest :: rest == chans[i..] ==> AddAll(r, w.channels, rest) == total)
    && ChannelsGrown(w0.channels, w.channels, chans)
    && (AllConfigured(w0.channels, chans) ==> w == w0 && NoCreation(log0, log))
  }

  lemma ChannelAdvance(r: Rules, w0: World, before: World, w: World, log0: seq<Call>, log1: seq<Call>, log: seq<Call>,
                       chans: seq<ManifestChannel>, i: nat, configured: set<string>,
                       total: (map<string, map<string, string>>, bool))
    requires ChannelsSince(r, w0, before, log0, log1, chans, i, configured, total) && i < |chans| && log1 <= log
    requires w == before.(channels := w.channels)
    requires if chans[i].platform in before.channels then w == before && log == log1
             else r.channel(chans[i].platform, chans[i].secrets)
                  && w.channels == before.channels[chans[i].platform := chans[i].secrets]
    ensures ChannelsSince(r, w0, w, log0, log, chans, i + 1, configured, total)
    ensures AddAll(r, w.channels, chans) == total
  {
    ChannelDone(r, before.channels, w.channels, chans, i);
    assert chans[i] in chans;
    if chans[i].platform !in before.channels {
      ChannelGrows(w0.channels, before.channels, chans, i);
    }
  }

  /** One platform, unless it was configured when the step began. */
  method AddOne(p: Provider, chans: seq<ManifestChannel>, i: nat, configured: set<string>,
                ghost w0: World, ghost log0: seq<Call>, ghost total: (map<string, map<string, string>>, bool))
      returns (ok: bool)
    requires forall i, j :: 0 <= i < j < |chans| ==> chans[i].platform != chans[j].platform
    requires ChannelsSince(p.rules, w0, p.w, log0, p.log, chans, i, configured, total) && i < |chans|
    modifies p
    ensures p.clock >= old(p.clock)
    ensures ok ==> ChannelsSince(p.rules, w0, p.w, log0, p.log, chans, i + 1, configured, total)
    ensures !ok ==>
              && p.w == w0.(channels := p.w.channels) && log0 <= p.log && ChannelsGrown(w0.channels, p.w.channels, chans)
              && AddAll(p.rules, p.w.channels, chans) == total && !AllConfigured(w0.channels, chans)
              && (Healthy(p.script, old(p.clock)) ==> total == (p.w.channels, false))
  {
    ghost var before, log1 := p.w, p.log;
    SkipConfigured(p.rules, before.channels, chans, i);
    assert chans[i..][0] == chans[i];
    if chans[i].platform in configured {
      ChannelAdvance(p.rules, w0, before, p.w, log0, log1, p.log, chans, i, configured, total);
      return true;
    }
    assert chans[i].platform !in before.channels;
    ok := p.Tick(AddChannel, p.rules.channel(chans[i].platform, chans[i].secrets),
                 p.w.(channels := p.w.channels[chans[i].platform := chans[i].secrets]));
    if p.w != before {
      ChannelAdvance(p.rules, w0, before, p.w, log0, log1, p.log, chans, i, configured, total);
    }
  }

  /** Which platforms are configured is read once, before the first one is added. */
  method BootstrapChannels(p: Provider, chans: seq<ManifestChannel>) returns (ok: bool)
    requires forall i, j :: 0 <= i < j < |chans| ==> chans[i].platform != chans[j].platform
    modifies p
    ensures p.w == old(p.w).(channels := p.w.channels) && p.clock >= old(p.clock) && old(p.log) <= p.log
    ensures AddAll(p.rules, p.w.channels, chans) == AddAll(p.rules, old(p.w.channels), chans)
    ensures ok ==> AllConfigured(p.w.channels, chans)
    ensures Healthy(p.script, old(p.clock)) && !ok ==>
              AddAll(p.rules, old(p.w.channels), chans) == (p.w.channels, false)
    ensures AllConfigured(old(p.w.channels), chans) ==> p.w == old(p.w) && NoCreation(old(p.log), p.log)
    ensures ChannelsGrown(old(p.w.channels), p.w.channels, chans)
  {
    ghost var w0, log0 := p.w, p.log;
    ghost var total := AddAll(p.rules, w0.channels, chans);
    var listed := p.Tick(Read, true, p.w);
    if !listed {
      return false;
    }
    var configured := p.w.channels.Keys;
    assert chans[0..] == chans;
    for i := 0 to |chans|
      invariant ChannelsSince(p.rules, w0, p.w, log0, p.log, chans, i, configured, total) && p.clock >= old(p.clock)
    {
      ok := AddOne(p, chans, i, configured, w0, log0, total);
      if !ok {
        return;
      }
    }
    assert chans[..|chans|] == chans;
    SkipConfigured(p.rules, p.w.channels, chans, |chans|);
    ok := true;
  }

  // ---- Bindings ----

  lemma WantDone(r: Rules, agents: seq<Agent>, next: seq<Agent>, platforms: set<string>, ws: seq<Want>, i: nat)
    requires i < |ws| && AllBound(agents, ws[..i])
    requires if IsBound(agents, ws[i]) then next == agents
             else CanBind(r, agents, platforms, ws[i]) && next == BootstrapModel.Bind(agents, ws[i])
    ensures AllBound(next, ws[..i + 1]) && Names(agents) == Names(next)
    ensures BindAll(r, next, platforms, ws[i + 1..]) == BindAll(r, agents, platforms, ws[i..])
    ensures BindAll(r, next, platforms, ws) == BindAll(r, next, platforms, ws[i + 1..])
  {
    assert ws[i..][0] == ws[i] && ws[i..][1..] == ws[i + 1..];
    var done := ws[..i + 1];
    forall k | 0 <= k < |done|
      ensures IsBound(next, done[k])
    {
      if k < i {
        assert ws[..i][k] == done[k];
      }
      if next != agents {
        BindKeeps(agents, ws[i], done[k]);
      }
    }
    if next != agents {
      BindKeeps(agents, ws[i], ws[i]);
    }
    SkipBound(r, next, platforms, ws, i + 1);
  }

  /** GetAgent, the already-bound check, and BindChannel with the provider's own refusals. */
  method BindOne(p: Provider, w: Want) returns (ok: bool)
    modifies p
    ensures p.clock >= old(p.clock) && old(p.log) <= p.log
    ensures p.w == old(p.w) || (!IsBound(old(p.w.agents), w) &&
              CanBind(p.rules, old(p.w.agents), p.w.channels.Keys, w) &&
              p.w == old(p.w).(agents := BootstrapModel.Bind(old(p.w.agents), w)))
    ensures ok ==> IsBound(p.w.agents, w)
    ensures Healthy(p.script, old(p.clock)) && !ok ==>
              p.w == old(p.w) && !IsBound(p.w.agents, w) && !CanBind(p.rules, p.w.agents, p.w.channels.Keys, w)
    ensures IsBound(old(p.w.agents), w) ==> p.w == old(p.w) && NoCreation(old(p.log), p.log)
  {
    var i := IndexOf(p.w.agents, w.agent);
    var got := p.Tick(Read, i < |p.w.agents|, p.w);
    if !got {
      return false;
    }
    if Has(p.w.agents[i], w.binding) {
      return true;
    }
    BindEffect(p.w.agents, w);
    ok := p.Tick(Bind, CanBind(p.rules, p.w.agents, p.w.channels.Keys, w),
                 p.w.(agents := BootstrapModel.Bind(p.w.agents, w)));
  }

  lemma BindEffect(agents: seq<Agent>, w: Want)
    requires Exists(agents, w.agent)
    ensures IsBound(BootstrapModel.Bind(agents, w), w)
  {
    BindKeeps(agents, w, w);
  }

  /** The first k wants are bound, and binding the rest from here gives `total`. */
  ghost predicate BindProgress(r: Rules, agents: seq<Agent>, platforms: set<string>, all: seq<Want>, k: nat,
                               total: (seq<Agent>, bool))
  {
    && k <= |all| && AllBound(agents, all[..k])
    && forall rest :: rest == all[k..] ==> BindAll(r, agents, platforms, rest) == total
  }

  /** A binding pass stopped here: starting over from here gives `total` all the same, and
      with no fault to blame the total is this very state, refused. */
  ghost predicate BindStopped(r: Rules, agents: seq<Agent>, platforms: set<string>, all: seq<Want>,
                              total: (seq<Agent>, bool), healthy: bool)
  {
    BindAll(r, agents, platforms, all) == total && (healthy ==> total == (agents, false))
  }

  lemma BindAdvance(r: Rules, before: seq<Agent>, agents: seq<Agent>, platforms: set<string>, all: seq<Want>, k: nat,
                    total: (seq<Agent>, bool), healthy: bool)
    requires BindProgress(r, before, platforms, all, k, total) && k < |all|
    requires agents == before || (!IsBound(before, all[k]) && CanBind(r, before, platforms, all[k]) &&
                                  agents == BootstrapModel.Bind(before, all[k]))
    requires healthy ==> IsBound(agents, all[k]) || (agents == before && !CanBind(r, agents, platforms, all[k]))
    ensures Names(before) == Names(agents)
    ensures IsBound(agents, all[k]) ==> BindProgress(r, agents, platforms, all, k + 1, total)
    ensures BindStopped(r, agents, platforms, all, total, healthy && !IsBound(agents, all[k]))
  {
    assert all[k..][0] == all[k];
    SkipBound(r, before, platforms, all, k);
    if agents != before || IsBound(before, all[k]) {
      WantDone(r, before, agents, platforms, all, k);
    }
  }

  lemma BindFinished(r: Rules, agents: seq<Agent>, platforms: set<string>, all: seq<Want>, total: (seq<Agent>, bool))
    requires BindProgress(r, agents, platforms, all, |all|, total)
    ensures AllBound(agents, all) && BindAll(r, agents, platforms, all) == total == (agents, true)
  {
    assert all[..|all|] == all;
    SkipBound(r, agents, platforms, all, |all|);
  }

  /** What a binding pass has touched since it began: bindings only, and if everything was
      bound already (`quiet`), nothing. */
  ghost predicate Since(w0: World, w: World, clock0: nat, clock: nat, log0: seq<Call>, log: seq<Call>, quiet: bool,
                        all: seq<Want>)
  {
    && (forall ms :: AgentsGrown(w0.agents, w.agents, ms, all))
    && clock >= clock0 && log0 <= log
    && w == w0.(agents := w.agents) && Names(w0.agents) == Names(w.agents)
    && (quiet ==> w == w0 && NoCreation(log0, log))
  }

  /** One binding of the manifest, the one at position k of `all`. */
  method BindStep(p: Provider, want: Want, ghost all: seq<Want>, ghost k: nat, ghost total: (seq<Agent>, bool),
                  ghost w0: World, ghost clock0: nat, ghost log0: seq<Call>, ghost quiet: bool)
      returns (ok: bool)
    requires BindProgress(p.rules, p.w.agents, p.w.channels.Keys, all, k, total)
    requires Since(w0, p.w, clock0, p.clock, log0, p.log, quiet, all)
    requires k < |all| && all[k] == want && (quiet ==> IsBound(p.w.agents, want))
    modifies p
    ensures Since(w0, p.w, clock0, p.clock, log0, p.log, quiet, all)
    ensures ok ==> BindProgress(p.rules, p.w.agents, p.w.channels.Keys, all, k + 1, total)
    ensures !ok ==> BindStopped(p.rules, p.w.agents, p.w.channels.Keys, all, total, Healthy(p.script, clock0))
  {
    ghost var before, log1 := p.w.agents, p.log;
    ghost var healthy := Healthy(p.script, p.clock);
    ok := BindOne(p, want);
    if quiet {
      NoCreationTransitive(log0, log1, p.log);
    }
    if p.w.agents != before {
      forall ms
        ensures AgentsGrown(w0.agents, p.w.agents, ms, all)
      {
        BindGrows(w0.agents, before, want, ms, all);
      }
    }
    BindAdvance(p.rules, before, p.w.agents, p.w.channels.Keys, all, k, total, healthy);
  }

  lemma WantAt(agents: seq<Agent>, ch: ManifestChannel, all: seq<Want>, k: nat, b: nat)
    requires k + |ch.bindings| <= |all| && all[k..k + |ch.bindings|] == WantsOf(ch.platform, ch.bindings)
    requires b < |ch.bindings|
    ensures all[k + b] == Want(ch.bindings[b].agent, Binding(ch.platform, ch.bindings[b].id, ch.bindings[b].caption))
    ensures AllBound(agents, all) ==> IsBound(agents, all[k + b])
  {
    assert all[k..k + |ch.bindings|][b] == all[k + b];
  }

  /** The bindings of one channel; they stand in `all` from position k on. */
  method BindChannelWants(p: Provider, ch: ManifestChannel, ghost all: seq<Want>, ghost k: nat, ghost total: (seq<Agent>, bool),
                          ghost w0: World, ghost clock0: nat, ghost log0: seq<Call>, ghost quiet: bool)
      returns (ok: bool)
    requires BindProgress(p.rules, p.w.agents, p.w.channels.Keys, all, k, total)
    requires k + |ch.bindings| <= |all| && all[k..k + |ch.bindings|] == WantsOf(ch.platform, ch.bindings)
    requires Since(w0, p.w, clock0, p.clock, log0, p.log, quiet, all)
    requires quiet ==> AllBound(w0.agents, all)
    modifies p
    ensures Since(w0, p.w, clock0, p.clock, log0, p.log, quiet, all)
    ensures ok ==> BindProgress(p.rules, p.w.agents, p.w.channels.Keys, all, k + |ch.bindings|, total)
    ensures !ok ==> BindStopped(p.rules, p.w.agents, p.w.channels.Keys, all, total, Healthy(p.script, clock0))
  {
    for b := 0 to |ch.bindings|
      invariant BindProgress(p.rules, p.w.agents, p.w.channels.Keys, all, k + b, total)
      invariant Since(w0, p.w, clock0, p.clock, log0, p.log, quiet, all)
    {
      WantAt(p.w.agents, ch, all, k, b);
      var want := Want(ch.bindings[b].agent, Binding(ch.platform, ch.bindings[b].id, ch.bindings[b].caption));
      ok := BindStep(p, want, all, k + b, total, w0, clock0, log0, quiet);
      if !ok {
        return;
      }
    }
    ok := true;
  }

  method BindChannels(p: Provider, chans: seq<ManifestChannel>, ghost all: seq<Want>,
                      ghost total: (seq<Agent>, bool), ghost quiet: bool)
      returns (ok: bool)
    requires all == Wants(chans) && BindProgress(p.rules, p.w.agents, p.w.channels.Keys, all, 0, total)
    requires quiet ==> AllBound(p.w.agents, all)
    modifies p
    ensures Since(old(p.w), p.w, old(p.clock), p.clock, old(p.log), p.log, quiet, all)
    ensures ok ==> BindProgress(p.rules, p.w.agents, p.w.channels.Keys, all, |all|, total)
    ensures !ok ==> BindStopped(p.rules, p.w.agents, p.w.channels.Keys, all, total, Healthy(p.script, old(p.clock)))
  {
    ghost var w0, clock0, log0 := p.w, p.clock, p.log;
    for c := 0 to |chans|
      invariant BindProgress(p.rules, p.w.agents, p.w.channels.Keys, all, |Wants(chans[..c])|, total)
      invariant Since(w0, p.w, clock0, p.clock, log0, p.log, quiet, all)
    {
      WantsAt(chans, c);
      ok := BindChannelWants(p, chans[c], all, |Wants(chans[..c])|, total, w0, clock0, log0, quiet);
      if !ok {
        return;
      }
    }
    assert chans[..|chans|] == chans;
    ok := true;
  }

  /** The bindings of all channels, in manifest order. */
  method BootstrapBindings(p: Provider, chans: seq<ManifestChannel>) returns (ok: bool)
    modifies p
    ensures p.clock >= old(p.clock) && old(p.log) <= p.log
    ensures p.w == old(p.w).(agents := p.w.agents) && Names(old(p.w.agents)) == Names(p.w.agents)
    ensures BindStopped(p.rules, p.w.agents, p.w.channels.Keys, Wants(chans),
                        BindAll(p.rules, old(p.w.agents), p.w.channels.Keys, Wants(chans)),
                        Healthy(p.script, old(p.clock)) && !ok)
    ensures ok ==> AllBound(p.w.agents, Wants(chans))
    ensures AllBound(old(p.w.agents), Wants(chans)) ==> p.w == old(p.w) && NoCreation(old(p.log), p.log)
    ensures forall ms :: AgentsGrown(old(p.w.agents), p.w.agents, ms, Wants(chans))
  {
    ghost var all := Wants(chans);
    ghost var total := BindAll(p.rules, p.w.agents, p.w.channels.Keys, all);
    assert all[0..] == all;
    ok := BindChannels(p, chans, all, total, AllBound(p.w.agents, all));
    if ok {
      BindFinished(p.rules, p.w.agents, p.w.channels.Keys, all, total);
    }
  }

  /** Where the bindings of channel c stand in the flat list. */
  lemma WantsAt(chans: seq<ManifestChannel>, c: nat)
    requires c < |chans|
    ensures var k := |Wants(chans[..c])|;
            && k + |chans[c].bindings| == |Wants(chans[..c + 1])| <= |Wants(chans)|
            && Wants(chans)[k..k + |chans[c].bindings|] == WantsOf(chans[c].platform, chans[c].bindings)
  {
    WantsPrefix(chans, c);
  }

  lemma {:induction false} WantsPrefix(chans: seq<ManifestChannel>, c: nat)
    requires c <= |chans|
    ensures Wants(chans[..c]) <= Wants(chans)
    ensures c < |chans| ==> Wants(chans[..c + 1]) == Wants(chans[..c]) + WantsOf(chans[c].platform, chans[c].bindings)
    ensures c < |chans| ==> Wants(chans[..c + 1]) <= Wants(chans)
  {
    if c < |chans| {
      assert chans[..c + 1][..c] == chans[..c];
      var init := chans[..|chans| - 1];
      WantsPrefix(init, c);
      assert init[..c] == chans[..c];
      if c + 1 < |chans| {
        assert init[..c + 1] == chans[..c + 1];
      } else {
        assert chans[..c + 1] == chans;
      }
    } else {
      assert chans[..c] == chans;
    }
  }

  // ---- The step loop ----

  predicate HasBindings(m: Manifest) {
    exists i :: 0 <= i < |m.channels| && m.channels[i].bindings != []
  }

  lemma {:induction false} NoWants(chans: seq<ManifestChannel>)
    requires forall i :: 0 <= i < |chans| ==> chans[i].bindings == []
    ensures Wants(chans) == []
  {
    if chans != [] {
      NoWants(chans[..|chans| - 1]);
    }
  }

  /** What every step leaves behind, from state w0: a whole run started over from here makes
      what it would have made of w0; on success the step has nothing left to change; with no
      fault to blame, a failure is the manifest's own; and a finished state is not touched. */
  ghost predicate StepDone(r: Rules, w0: World, w: World, m: Manifest, n: nat, ok: bool, healthy: bool) {
    && Steps(r, w, m) == Steps(r, w0, m)
    && (ok ==> Done(w, m, n + 1))
    && (healthy && !ok ==> Steps(r, w0, m) == (w, false))
    && (Finished(w0, m) ==> w == w0)
  }

  ghost predicate SetupAllowed(r: Rules, m: Manifest) {
    m.setup.Some? ==> r.setup(m.setup.value)
  }

  method StepSetup(p: Provider, m: Manifest) returns (ok: bool)
    modifies p
    ensures p.clock >= old(p.clock) && NoCreation(old(p.log), p.log)
    ensures StepDone(p.rules, old(p.w), p.w, m, 0, ok, Healthy(p.script, old(p.clock)))
    ensures GrownFrom(old(p.w), p.w, m)
    ensures ok ==> SetupAllowed(p.rules, m)
    ensures p.w.policy == old(p.w.policy)
  {
    ghost var w0 := p.w;
    ok := true;
    if m.setup.Some? {
      ok := p.Tick(SetUp, p.rules.setup(m.setup.value), p.w.(setup := m.setup));
    }
    GrownSetup(w0, p.w, m);
  }

  method StepAgents(p: Provider, m: Manifest) returns (ok: bool)
    requires Done(p.w, m, 1) && SetupAllowed(p.rules, m)
    modifies p
    ensures p.clock >= old(p.clock) && old(p.log) <= p.log
    ensures StepDone(p.rules, old(p.w), p.w, m, 1, ok, Healthy(p.script, old(p.clock)))
    ensures GrownFrom(old(p.w), p.w, m)
    ensures Finished(old(p.w), m) ==> NoCreation(old(p.log), p.log)
    ensures p.w.policy == old(p.w.policy)
  {
    ghost var w0 := p.w;
    SkipDone(p.rules, w0, m, 1);
    ok := true;
    if m.agents != [] {
      ok := BootstrapAgents(p, m.agents);
    }
    GrownAgents(w0, p.w, m);
    SkipDone(p.rules, p.w, m, 1);
  }

  method StepSecrets(p: Provider, m: Manifest) returns (ok: bool)
    requires Valid(m) && Done(p.w, m, 2) && SetupAllowed(p.rules, m)
    modifies p
    ensures p.clock >= old(p.clock) && NoCreation(old(p.log), p.log)
    ensures StepDone(p.rules, old(p.w), p.w, m, 2, ok, Healthy(p.script, old(p.clock)))
    ensures GrownFrom(old(p.w), p.w, m)
    ensures p.w.policy == old(p.w.policy)
  {
    ghost var w0 := p.w;
    SkipDone(p.rules, w0, m, 2);
    ok := true;
    if m.agents != [] {
      ok := BootstrapSecrets(p, m.agents);
    }
    GrownSecrets(w0, p.w, m);
    SkipDone(p.rules, p.w, m, 2);
  }

  method StepChannels(p: Provider, m: Manifest) returns (ok: bool)
    requires Valid(m) && Done(p.w, m, 3) && SetupAllowed(p.rules, m)
    modifies p
    ensures p.clock >= old(p.clock) && old(p.log) <= p.log
    ensures StepDone(p.rules, old(p.w), p.w, m, 3, ok, Healthy(p.script, old(p.clock)))
    ensures GrownFrom(old(p.w), p.w, m)
    ensures Finished(old(p.w), m) ==> NoCreation(old(p.log), p.log)
    ensures p.w.policy == old(p.w.policy)
  {
    ghost var w0 := p.w;
    SkipDone(p.rules, w0, m, 3);
    ok := true;
    if m.channels != [] {
      ok := BootstrapChannels(p, m.channels);
    }
    GrownChannels(w0, p.w, m);
    SkipDone(p.rules, p.w, m, 3);
  }

  /** The policy file is written only when it did not exist at the start of the run. */
  method StepPolicy(p: Provider, m: Manifest, writePolicy: bool) returns (ok: bool)
    requires Done(p.w, m, 4) && SetupAllowed(p.rules, m)
    requires writePolicy <==> m.policy.Some? && p.w.policy.None?
    modifies p
    ensures p.clock >= old(p.clock) && NoCreation(old(p.log), p.log)
    ensures old(p.w).policy.Some? ==> p.w.policy.Some?
    ensures StepDone(p.rules, old(p.w), p.w, m, 4, ok, Healthy(p.script, old(p.clock)))
    ensures GrownFrom(old(p.w), p.w, m)
  {
    ghost var w0 := p.w;
    SkipDone(p.rules, w0, m, 4);
    ok := true;
    if writePolicy {
      ok := p.Tick(SavePolicy, p.rules.policy(m.policy.value), p.w.(policy := m.policy));
    }
    SkipDone(p.rules, p.w, m, 4);
    GrownPolicy(w0, p.w, m);
  }

  method StepBindings(p: Provider, m: Manifest) returns (ok: bool)
    requires Done(p.w, m, 5) && SetupAllowed(p.rules, m)
    modifies p
    ensures p.clock >= old(p.clock) && old(p.log) <= p.log
    ensures StepDone(p.rules, old(p.w), p.w, m, 5, ok, Healthy(p.script, old(p.clock)))
    ensures GrownFrom(old(p.w), p.w, m)
    ensures Finished(old(p.w), m) ==> NoCreation(old(p.log), p.log)
    ensures p.w.policy == old(p.w).policy
  {
    ghost var w0 := p.w;
    SkipDone(p.rules, w0, m, 5);
    ok := true;
    if HasBindings(m) {
      ok := BootstrapBindings(p, m.channels);
    } else {
      NoWants(m.channels);
    }
    GrownAgents(w0, p.w, m);
    SameNamesExist(w0.agents, p.w.agents, m.agents);
    SkipDone(p.rules, p.w, m, 5);
  }

  /** The three steps that create things, up to the channels. */
  method FirstSteps(p: Provider, m: Manifest) returns (ok: bool)
    requires Valid(m)
    modifies p
    ensures p.clock >= old(p.clock) && old(p.log) <= p.log
    ensures StepDone(p.rules, old(p.w), p.w, m, 3, ok, Healthy(p.script, old(p.clock)))
    ensures GrownFrom(old(p.w), p.w, m)
    ensures ok ==> SetupAllowed(p.rules, m)
    ensures Finished(old(p.w), m) ==> NoCreation(old(p.log), p.log)
    ensures p.w.policy == old(p.w.policy)
  {
    ghost var w0, log0 := p.w, p.log;
    ok := StepSetup(p, m);
    if !ok {
      return;
    }
    ghost var log1, w1 := p.log, p.w;
    ok := StepAgents(p, m);
    GrownTransitive(w0, w1, p.w, m);
    if Finished(w0, m) {
      NoCreationTransitive(log0, log1, p.log);
    }
    if !ok {
      return;
    }
    ghost var log2, w2 := p.log, p.w;
    ok := StepSecrets(p, m);
    GrownTransitive(w0, w2, p.w, m);
    if Finished(w0, m) {
      NoCreationTransitive(log0, log2, p.log);
    }
    if !ok {
      return;
    }
    ghost var log3, w3 := p.log, p.w;
    ok := StepChannels(p, m);
    GrownTransitive(w0, w3, p.w, m);
    if Finished(w0, m) {
      NoCreationTransitive(log0, log3, p.log);
    }
  }

  /** The six steps and the closing refresh. */
  method AllSteps(p: Provider, m: Manifest, writePolicy: bool) returns (ok: bool)
    requires Valid(m) && (writePolicy <==> m.policy.Some? && p.w.policy.None?)
    modifies p
    ensures p.clock >= old(p.clock) && old(p.log) <= p.log
    ensures StepDone(p.rules, old(p.w), p.w, m, 5, ok, Healthy(p.script, old(p.clock)))
    ensures GrownFrom(old(p.w), p.w, m)
    ensures ok ==> SetupAllowed(p.rules, m)
    ensures Finished(old(p.w), m) ==> NoCreation(old(p.log), p.log)
    ensures old(p.w).policy.Some? ==> p.w.policy.Some?
  {
    ghost var w0, log0 := p.w, p.log;
    ok := FirstSteps(p, m);
    if !ok {
      return;
    }
    ghost var log1, w1 := p.log, p.w;
    ok := StepPolicy(p, m, writePolicy);
    GrownTransitive(w0, w1, p.w, m);
    if Finished(w0, m) {
      NoCreationTransitive(log0, log1, p.log);
    }
    if !ok {
      return;
    }
    ghost var log2, w2 := p.log, p.w;
    ok := StepBindings(p, m);
    GrownTransitive(w0, w2, p.w, m);
    if Finished(w0, m) {
      NoCreationTransitive(log0, log2, p.log);
    }
  }

  /** A whole run. Whatever fails, the state it leaves is one from which a run makes what it
      would have made of the state the run started from. */
  method Bootstrap(p: Provider, m: Manifest) returns (ok: bool)
    requires Valid(m)
    modifies p
    ensures p.clock >= old(p.clock)
    ensures Steps(p.rules, p.w, m) == Steps(p.rules, old(p.w), m)
    ensures ok ==> Outcome(p.rules, old(p.w), m) == (p.w, true)
    ensures Healthy(p.script, old(p.clock)) ==> Outcome(p.rules, old(p.w), m) == (p.w, ok)
    ensures Finished(old(p.w), m) ==> p.w == old(p.w) && NoCreation(old(p.log), p.log)
    ensures old(p.w).policy.Some? ==> p.w.policy.Some?
    ensures GrownFrom(old(p.w), p.w, m)
  {
    ghost var w0, log0 := p.w, p.log;
    GrownReflexive(w0, m);
    var writePolicy := false;
    if m.policy.Some? {
      var looked := p.Tick(Read, true, p.w);
      if !looked {
        return false;
      }
      writePolicy := p.w.policy.None?;
    }
    if m.setup.None? && m.agents == [] && m.channels == [] && !writePolicy {
      return false;
    }
    ghost var log1 := p.log;
    ok := AllSteps(p, m, writePolicy);
    if Finished(w0, m) {
      NoCreationTransitive(log0, log1, p.log);
    }
    if !ok {
      return;
    }
    SkipDone(p.rules, p.w, m, 6);
    if !HasBindings(m) {
      ok := p.Tick(Refresh, true, p.w);
    }
  }

  /** Resume equivalence. Any number of runs, each with faults of its own, and then one more:
      if that succeeds, or if no fault befalls it, its state is the one that a single
      uninterrupted run makes of the state the first run started from. */
  method FailAndResume(rules: Rules, w0: World, m: Manifest, faulty: seq<nat -> Fault>, last: nat -> Fault)
      returns (w: World, resumed: bool, v: World, uninterrupted: bool)
    requires Valid(m)
    ensures (v, uninterrupted) == Outcome(rules, w0, m)
    ensures Steps(rules, w, m) == Steps(rules, w0, m)
    ensures resumed ==> uninterrupted && w == v
    ensures GrownFrom(w0, w, m)
    ensures Healthy(last, 0) ==> w == v
    ensures Healthy(last, 0) && (m.setup.Some? || m.agents != [] || m.channels != []) ==> resumed == uninterrupted
  {
    var q := new Provider(rules, (t: nat) => Works, w0);
    uninterrupted := Bootstrap(q, m);
    v := q.w;
    w := FaultyRuns(rules, w0, m, faulty);
    ghost var left := w;
    var p := new Provider(rules, last, w);
    resumed := Bootstrap(p, m);
    w := p.w;
    GrownTransitive(w0, left, w, m);
    ResumedOutcome(rules, w0, left, m);
  }

  /** Runs that end anyhow, one after the other. */
  method FaultyRuns(rules: Rules, w0: World, m: Manifest, faulty: seq<nat -> Fault>) returns (w: World)
    requires Valid(m)
    ensures Steps(rules, w, m) == Steps(rules, w0, m)
    ensures w0.policy.Some? ==> w.policy.Some?
    ensures GrownFrom(w0, w, m)
  {
    w := w0;
    GrownReflexive(w0, m);
    for i := 0 to |faulty|
      invariant Steps(rules, w, m) == Steps(rules, w0, m)
      invariant w0.policy.Some? ==> w.policy.Some?
      invariant GrownFrom(w0, w, m)
    {
      var p := new Provider(rules, faulty[i], w);
      var ignored := Bootstrap(p, m);
      GrownTransitive(w0, w, p.w, m);
      w := p.w;
    }
  }

  /** Two states from which the steps lead to the same end, the second no less seeded than the
      first: an uninterrupted run makes the same of both. */
  lemma ResumedOutcome(r: Rules, w0: World, w: World, m: Manifest)
    requires Steps(r, w, m) == Steps(r, w0, m) && (w0.policy.Some? ==> w.policy.Some?)
    ensures Outcome(r, w, m).0 == Outcome(r, w0, m).0
    ensures Outcome(r, w, m).1 ==> Outcome(r, w0, m).1
  {
    if !Actionable(w, m) {
      SkipDone(r, w, m, 6);
      if !Actionable(w0, m) {
        SkipDone(r, w0, m, 6);
      }
    }
  }
}
