/** The fleet's channel state machine (pkg/provider/localprovider): provision, pause, bind,
    unbind, remove, and the routing tables regenerated along the way. */
module Channels {
  import opened Sequences
  import opened Strings
  import opened Routing

  datatype Error =
    | UnknownPlatform
    | NotConfigured
    | MissingSecret
    | NoSuchAgent
    | AlreadyBound
    | NotBound
    | UnsupportedRuntime
    | InvalidID

  datatype Result = Ok | Err(error: Error)

  // ---- The agent records, sorted by name ----

  ghost predicate SortedByName(agents: seq<Agent>) {
    forall i, j :: 0 <= i < j < |agents| ==> Less(agents[i].name, agents[j].name)
  }

  predicate Named(agents: seq<Agent>, name: string) {
    exists i :: 0 <= i < |agents| && agents[i].name == name
  }

  function Find(agents: seq<Agent>, name: string): (i: nat)
    ensures i <= |agents|
    ensures i < |agents| ==> agents[i].name == name
    ensures i == |agents| <==> !Named(agents, name)
  {
    if agents == [] then 0
    else if agents[0].name == name then
      assert agents[0].name == name;
      0
    else
      var rest := Find(agents[1..], name);
      assert forall k :: 1 <= k < |agents| ==> agents[k] == agents[1..][k - 1];
      rest + 1
  }

  /** saveAgentConfig: the record replaces one of the same name, or goes to its place in the
      directory order. */
  function Saved(agents: seq<Agent>, a: Agent): seq<Agent> {
    if agents == [] then [a]
    else if agents[0].name == a.name then [a] + agents[1..]
    else if Less(agents[0].name, a.name) then [agents[0]] + Saved(agents[1..], a)
    else [a] + agents
  }

  lemma {:induction false} SavedMembers(agents: seq<Agent>, a: Agent)
    requires SortedByName(agents)
    ensures SortedByName(Saved(agents, a))
    ensures forall b :: b in Saved(agents, a) <==> b == a || (b in agents && b.name != a.name)
  {
    if agents == [] {
      return;
    }
    var rest := agents[1..];
    assert agents == [agents[0]] + rest;
    assert forall k :: 0 <= k < |rest| ==> Less(agents[0].name, rest[k].name);
    if agents[0].name == a.name {
      forall b | b in rest
        ensures b.name != a.name
      {
        LessIrreflexive(a.name);
      }
    } else if Less(agents[0].name, a.name) {
      SavedMembers(rest, a);
      var s := Saved(rest, a);
      forall k | 0 <= k < |s|
        ensures Less(agents[0].name, s[k].name)
      {
        assert s[k] in s;
      }
    } else {
      LessTotal(agents[0].name, a.name);
      forall k | 0 <= k < |agents|
        ensures Less(a.name, agents[k].name)
      {
        if k > 0 {
          LessTransitive(a.name, agents[0].name, agents[k].name);
        }
      }
      LessIrreflexive(a.name);
    }
  }

  /** Saving under a name that exists replaces that record in place. */
  lemma {:induction false} SavedInPlace(agents: seq<Agent>, i: nat, a: Agent)
    requires i < |agents| && SortedByName(agents) && agents[i].name == a.name
    ensures Saved(agents, a) == agents[i := a]
  {
    if i > 0 {
      LessIrreflexive(a.name);
      SavedInPlace(agents[1..], i - 1, a);
      assert agents == [agents[0]] + agents[1..];
    }
  }

  function Without(agents: seq<Agent>, name: string): seq<Agent> {
    Rejected(agents, (a: Agent) => a.name == name)
  }

  lemma WithoutMembers(agents: seq<Agent>, name: string)
    requires SortedByName(agents)
    ensures SortedByName(Without(agents, name))
    ensures forall b :: b in Without(agents, name) <==> b in agents && b.name != name
  {
    var earlier := (a: Agent, b: Agent) => Less(a.name, b.name);
    RejectedMembers(agents, (a: Agent) => a.name == name, earlier);
    assert Pairwise(agents, earlier);
    assert forall i, j :: 0 <= i < j < |Without(agents, name)| ==> earlier(Without(agents, name)[i], Without(agents, name)[j]);
  }

  // ---- Stripping a platform ----

  function Stripped(a: Agent, platform: string): Agent {
    if IsBoundTo(a, platform) then a.(bindings := Filtered(a.bindings, platform)) else a
  }

  function StripAll(agents: seq<Agent>, platform: string): seq<Agent> {
    seq(|agents|, i requires 0 <= i < |agents| => Stripped(agents[i], platform))
  }

  predicate Mentions(a: Agent, platform: string) {
    exists i :: 0 <= i < |a.bindings| && a.bindings[i].platform == platform
  }

  lemma StrippedIsClean(a: Agent, platform: string)
    ensures !Mentions(Stripped(a, platform), platform)
    ensures GoodAgent(a) ==> GoodAgent(Stripped(a, platform))
    ensures forall b :: b in Stripped(a, platform).bindings <==> b in a.bindings && b.platform != platform
  {
    FilteredMembers(a.bindings, platform);
    var s := Stripped(a, platform);
    assert forall i :: 0 <= i < |s.bindings| ==> s.bindings[i] in s.bindings;
    assert forall i :: 0 <= i < |a.bindings| ==> a.bindings[i] in a.bindings;
  }

  // ---- What every reachable fleet satisfies ----

  ghost predicate GoodAgent(a: Agent) {
    && OnePerPlatform(a.bindings)
    && forall b :: b in a.bindings ==> Registered(b.platform) && ValidateBinding(b.platform, a.kind, b.id)
  }

  ghost predicate GoodFleet(agents: seq<Agent>) {
    SortedByName(agents) && forall a :: a in agents ==> GoodAgent(a)
  }

  /** Same agents, each with the same bindings or with those of one platform gone. */
  lemma StripAllGood(agents: seq<Agent>, platform: string)
    requires GoodFleet(agents)
    ensures GoodFleet(StripAll(agents, platform))
    ensures forall a :: a in StripAll(agents, platform) ==> !Mentions(a, platform)
  {
    var s := StripAll(agents, platform);
    forall a | a in s
      ensures GoodAgent(a) && !Mentions(a, platform)
    {
      var i :| 0 <= i < |s| && s[i] == a;
      StrippedIsClean(agents[i], platform);
    }
  }

  // ---- The state machine ----

  /** What a platform keeps among the shared secrets, and which of it is required. */
  function Required(platform: string): seq<string> {
    if platform == SLACK then ["slack-bot-token", "slack-signing-secret"]
    else if platform == TELEGRAM then ["telegram-bot-token"]
    else []
  }

  function Shared(platform: string): seq<string> {
    Required(platform) + if platform == SLACK then ["slack-app-token"]
                         else if platform == TELEGRAM then ["telegram-webhook-secret"] else []
  }

  predicate Present(secrets: map<string, string>, name: string) {
    name in secrets && secrets[name] != ""
  }

  predicate AllPresent(secrets: map<string, string>, names: seq<string>) {
    forall i :: 0 <= i < |names| ==> Present(secrets, names[i])
  }

  predicate HasCredentials(secrets: map<string, string>, platform: string) {
    Registered(platform) && AllPresent(secrets, Required(platform))
  }

  /** A platform is configured when its tokens are there and not empty; the optional ones never
      matter, and no other platform is ever configured. */
  lemma CredentialsAre(secrets: map<string, string>, platform: string)
    ensures HasCredentials(secrets, platform) <==>
              || (platform == SLACK && Present(secrets, "slack-bot-token") && Present(secrets, "slack-signing-secret"))
              || (platform == TELEGRAM && Present(secrets, "telegram-bot-token"))
  {
    var names := Required(platform);
    if platform == SLACK {
      assert names[0] == "slack-bot-token" && names[1] == "slack-signing-secret";
    } else if platform == TELEGRAM {
      assert names[0] == "telegram-bot-token";
    }
  }

  /** The given values that are not empty, written over those there are. */
  function Written(secrets: map<string, string>, names: seq<string>, given: map<string, string>): map<string, string> {
    if names == [] then secrets
    else
      var init, last := Written(secrets, names[..|names| - 1], given), names[|names| - 1];
      if Present(given, last) then init[last := given[last]] else init
  }

  datatype State = State(agents: seq<Agent>, secrets: map<string, string>)

  datatype Op =
    | Provision(agent: Agent)
    | RemoveAgent(name: string)
    | SetPaused(name: string, paused: bool)
    | AddChannel(platform: string, given: map<string, string>)
    | BindChannel(name: string, binding: Binding)
    | UnbindChannel(name: string, platform: string)
    | RemoveChannel(platform: string)

  function Paused(s: State, name: string, paused: bool): (State, Result) {
    var i := Find(s.agents, name);
    if i == |s.agents| then (s, Err(NoSuchAgent))
    else (s.(agents := s.agents[i := s.agents[i].(paused := paused)]), Ok)
  }

  function Added(s: State, platform: string, given: map<string, string>): (State, Result) {
    if !Registered(platform) then (s, Err(UnknownPlatform))
    else if !AllPresent(given, Required(platform)) then (s, Err(MissingSecret))
    else (s.(secrets := Written(s.secrets, Shared(platform), given)), Ok)
  }

  /** The checks in their order; a binding that passes them is appended. */
  function Bound(s: State, name: string, b: Binding): (State, Result) {
    var i := Find(s.agents, name);
    if !Registered(b.platform) then (s, Err(UnknownPlatform))
    else if !HasCredentials(s.secrets, b.platform) then (s, Err(NotConfigured))
    else if i == |s.agents| then (s, Err(NoSuchAgent))
    else
      var a := s.agents[i];
      if IsBoundTo(a, b.platform) then (s, Err(AlreadyBound))
      else if !SupportsRuntime(b.platform, ResolveRuntime(a.runtime, "")) then (s, Err(UnsupportedRuntime))
      else if !ValidateBinding(b.platform, a.kind, b.id) then (s, Err(InvalidID))
      else (s.(agents := s.agents[i := a.(bindings := a.bindings + [b])]), Ok)
  }

  function Unbound(s: State, name: string, platform: string): (State, Result) {
    var i := Find(s.agents, name);
    if !Registered(platform) then (s, Err(UnknownPlatform))
    else if i == |s.agents| then (s, Err(NoSuchAgent))
    else if !IsBoundTo(s.agents[i], platform) then (s, Err(NotBound))
    else (s.(agents := s.agents[i := Stripped(s.agents[i], platform)]), Ok)
  }

  /** A platform that is not configured is left alone, and with it every binding to it. */
  function Removed(s: State, platform: string): (State, Result) {
    if !Registered(platform) then (s, Err(UnknownPlatform))
    else if !HasCredentials(s.secrets, platform) then (s, Ok)
    else (State(StripAll(s.agents, platform), s.secrets - Elements(Shared(platform))), Ok)
  }

  function Step(s: State, op: Op): (State, Result) {
    match op
    case Provision(a) => (s.(agents := Saved(s.agents, a)), Ok)
    case RemoveAgent(name) => (s.(agents := Without(s.agents, name)), Ok)
    case SetPaused(name, paused) => Paused(s, name, paused)
    case AddChannel(platform, given) => Added(s, platform, given)
    case BindChannel(name, b) => Bound(s, name, b)
    case UnbindChannel(name, platform) => Unbound(s, name, platform)
    case RemoveChannel(platform) => Removed(s, platform)
  }

  /** Provisioning saves a record, also over an old one of its name; removal takes the agent of
      that name away; everybody else, and every secret, stays. */
  lemma RecordsChange(s: State, a: Agent, name: string)
    requires SortedByName(s.agents)
    ensures forall b :: b in Step(s, Provision(a)).0.agents <==> b == a || (b in s.agents && b.name != a.name)
    ensures forall b :: b in Step(s, RemoveAgent(name)).0.agents <==> b in s.agents && b.name != name
    ensures Step(s, Provision(a)).0.secrets == s.secrets && Step(s, RemoveAgent(name)).0.secrets == s.secrets
  {
    SavedMembers(s.agents, a);
    WithoutMembers(s.agents, name);
  }

  /** A run of any operations from an empty fleet. */
  function FleetOf(ops: seq<Op>): State {
    if ops == [] then State([], map[]) else Step(FleetOf(ops[..|ops| - 1]), ops[|ops| - 1]).0
  }

  /** Replacing a record by a good one of the same name. */
  lemma ReplacedGood(agents: seq<Agent>, i: nat, a: Agent)
    requires GoodFleet(agents) && i < |agents| && a.name == agents[i].name && GoodAgent(a)
    ensures GoodFleet(agents[i := a]) && Saved(agents, a) == agents[i := a]
  {
    SavedInPlace(agents, i, a);
    SavedMembers(agents, a);
  }

  lemma BoundGood(a: Agent, b: Binding)
    requires GoodAgent(a) && !IsBoundTo(a, b.platform) && Registered(b.platform) && ValidateBinding(b.platform, a.kind, b.id)
    ensures GoodAgent(a.(bindings := a.bindings + [b]))
  {
  }

  /** No operation spoils a good fleet: provisioned agents carry bindings the command line has
      validated, and every other operation checks for itself. */
  lemma StepKeepsGood(s: State, op: Op)
    requires GoodFleet(s.agents) && (op.Provision? ==> GoodAgent(op.agent))
    ensures GoodFleet(Step(s, op).0.agents)
  {
    assert forall i :: 0 <= i < |s.agents| ==> s.agents[i] in s.agents;
    match op
    case Provision(a) => SavedMembers(s.agents, a);
    case RemoveAgent(name) => WithoutMembers(s.agents, name);
    case SetPaused(name, paused) =>
      var i := Find(s.agents, name);
      if i < |s.agents| {
        ReplacedGood(s.agents, i, s.agents[i].(paused := paused));
      }
    case AddChannel(_, _) =>
    case BindChannel(name, b) =>
      if Step(s, op).1.Ok? {
        var i := Find(s.agents, name);
        BoundGood(s.agents[i], b);
        ReplacedGood(s.agents, i, s.agents[i].(bindings := s.agents[i].bindings + [b]));
      }
    case UnbindChannel(name, platform) =>
      var i := Find(s.agents, name);
      if i < |s.agents| {
        StrippedIsClean(s.agents[i], platform);
        ReplacedGood(s.agents, i, Stripped(s.agents[i], platform));
      }
    case RemoveChannel(platform) => StripAllGood(s.agents, platform);
  }

  ghost predicate GoodOps(ops: seq<Op>) {
    forall i :: 0 <= i < |ops| && ops[i].Provision? ==> GoodAgent(ops[i].agent)
  }

  /** In every reachable fleet records are sorted by name, and every agent has at most one
      binding a platform, each of them valid for its type. */
  lemma {:induction false} ReachableFleet(ops: seq<Op>)
    requires GoodOps(ops)
    ensures GoodFleet(FleetOf(ops).agents)
  {
    if ops != [] {
      ReachableFleet(ops[..|ops| - 1]);
      StepKeepsGood(FleetOf(ops[..|ops| - 1]), ops[|ops| - 1]);
    }
  }

  /** Adding a platform configures it exactly when every required secret is given, and takes
      no other platform's configuration away. */
  lemma AddedConfigures(s: State, platform: string, given: map<string, string>, other: string)
    ensures var (t, r) := Added(s, platform, given);
            && (r.Ok? ==> HasCredentials(t.secrets, platform))
            && (HasCredentials(s.secrets, other) ==> HasCredentials(t.secrets, other))
  {
    WrittenKeeps(s.secrets, Shared(platform), given);
    var names := Shared(platform);
    assert forall i :: 0 <= i < |Required(platform)| ==> names[i] == Required(platform)[i];
    assert forall i :: 0 <= i < |Required(platform)| ==> Required(platform)[i] in names;
  }

  lemma {:induction false} WrittenKeeps(secrets: map<string, string>, names: seq<string>, given: map<string, string>)
    ensures forall n :: Present(secrets, n) ==> Present(Written(secrets, names, given), n)
    ensures forall n :: n in names && Present(given, n) ==> Present(Written(secrets, names, given), n)
  {
    if names != [] {
      WrittenKeeps(secrets, names[..|names| - 1], given);
      assert names == names[..|names| - 1] + [names[|names| - 1]];
    }
  }

  /** Removing a platform: afterwards it is not configured, the others are as they were, and no
      agent mentions it exactly when it was configured or none did before. */
  lemma RemovedExactly(s: State, platform: string, other: string)
    requires GoodFleet(s.agents)
    ensures var t := Removed(s, platform).0;
            && !HasCredentials(t.secrets, platform)
            && (other != platform ==> (HasCredentials(t.secrets, other) <==> HasCredentials(s.secrets, other)))
            && ((forall a :: a in t.agents ==> !Mentions(a, platform))
                <==> HasCredentials(s.secrets, platform) || forall a :: a in s.agents ==> !Mentions(a, platform))
  {
    StripAllGood(s.agents, platform);
    if other != platform {
      NamesApart(platform, other);
    }
    if HasCredentials(s.secrets, platform) {
      assert Required(platform)[0] in Elements(Shared(platform)) by {
        assert Shared(platform)[0] == Required(platform)[0];
      }
    }
  }

  /** What a removal takes away: without the platform's token nothing; otherwise every secret of
      the platform, the optional ones too, and every binding of it, and nothing else. */
  lemma RemovesExactly(s: State, platform: string)
    ensures var (t, r) := Removed(s, platform);
            && (r == Ok <==> Registered(platform)) && (r.Err? ==> r.error == UnknownPlatform)
            && (!HasCredentials(s.secrets, platform) ==> t == s)
    ensures var t := Removed(s, platform).0;
            HasCredentials(s.secrets, platform) ==>
              && (forall n :: n in t.secrets <==> n in s.secrets && !SecretOf(platform, n))
              && (forall n :: n in t.secrets ==> t.secrets[n] == s.secrets[n])
              && |t.agents| == |s.agents|
              && forall k :: 0 <= k < |s.agents| ==>
                   && t.agents[k] == s.agents[k].(bindings := t.agents[k].bindings)
                   && forall b :: b in t.agents[k].bindings <==> b in s.agents[k].bindings && b.platform != platform
  {
    SharedAre(platform);
    if HasCredentials(s.secrets, platform) {
      forall k | 0 <= k < |s.agents|
        ensures forall b :: b in Removed(s, platform).0.agents[k].bindings <==> b in s.agents[k].bindings && b.platform != platform
      {
        FilteredMembers(s.agents[k].bindings, platform);
      }
    }
  }

  predicate SecretOf(platform: string, n: string) {
    || (platform == "slack" && (n == "slack-bot-token" || n == "slack-signing-secret" || n == "slack-app-token"))
    || (platform == "telegram" && (n == "telegram-bot-token" || n == "telegram-webhook-secret"))
  }

  lemma SharedAre(platform: string)
    ensures forall n :: n in Elements(Shared(platform)) <==> SecretOf(platform, n)
  {
    var names := Shared(platform);
    if platform == SLACK {
      assert names == ["slack-bot-token", "slack-signing-secret", "slack-app-token"];
    } else if platform == TELEGRAM {
      assert names == ["telegram-bot-token", "telegram-webhook-secret"];
    }
  }

  /** Two platforms share no secret. */
  lemma NamesApart(p: string, q: string)
    requires p != q
    ensures forall i :: 0 <= i < |Required(q)| ==> Required(q)[i] !in Elements(Shared(p))
  {
    assert forall n :: n in Shared(SLACK) ==> n[0] == 's';
    assert forall n :: n in Shared(TELEGRAM) ==> n[0] == 't';
  }

  method CheckGiven(required: seq<string>, given: map<string, string>) returns (complete: bool)
    ensures complete <==> AllPresent(given, required)
  {
    for i := 0 to |required|
      invariant forall j :: 0 <= j < i ==> Present(given, required[j])
    {
      if !Present(given, required[i]) {
        return false;
      }
    }
    complete := true;
  }

  class Fleet {
    const globalRuntime: string
    var agents: seq<Agent>
    var secrets: map<string, string>
    var routing: RoutingConfig

    constructor (globalRuntime: string)
      ensures Valid() && Now() == State([], map[]) && this.globalRuntime == globalRuntime
    {
      this.globalRuntime := globalRuntime;
      agents, secrets, routing := [], map[], RoutingConfig(map[], map[]);
    }

    function Now(): State
      reads this
    {
      State(agents, secrets)
    }

    /** Every record is good, and the routing tables are those of the records. */
    ghost predicate Valid()
      reads this
    {
      GoodFleet(agents) && routing == RoutingOf(agents, Loopback(globalRuntime))
    }

    predicate Configured(platform: string)
      reads this
    {
      HasCredentials(secrets, platform)
    }

    method Regenerate()
      requires GoodFleet(agents)
      modifies this`routing
      ensures Valid()
    {
      routing := GenerateRouting(agents, Loopback(globalRuntime));
    }

    method Save(a: Agent)
      requires GoodFleet(agents) && GoodAgent(a)
      modifies this`agents
      ensures agents == Saved(old(agents), a) && GoodFleet(agents)
    {
      SavedMembers(agents, a);
      agents := Saved(agents, a);
    }

    /** A record changed in place, and the tables after it. */
    method Replace(i: nat, a: Agent)
      requires Valid() && i < |agents| && a.name == agents[i].name && GoodAgent(a)
      modifies this`agents, this`routing
      ensures Valid() && agents == old(agents)[i := a]
    {
      ReplacedGood(agents, i, a);
      Save(a);
      Regenerate();
    }

    /** Provisioning saves what the command line has validated: at most one binding, valid for
        the agent's type. It does not ask whether the platform is configured. */
    method Provision(a: Agent)
      requires Valid() && GoodAgent(a)
      modifies this
      ensures Valid() && Now() == Step(old(Now()), Op.Provision(a)).0
    {
      Save(a);
      Regenerate();
    }

    method RemoveAgent(name: string)
      requires Valid()
      modifies this
      ensures Valid() && Now() == Step(old(Now()), Op.RemoveAgent(name)).0
    {
      WithoutMembers(agents, name);
      agents := Without(agents, name);
      Regenerate();
    }

    /** Pausing flips the flag and takes the agent out of the tables; unpausing is its inverse. */
    method SetPaused(name: string, paused: bool) returns (r: Result)
      requires Valid()
      modifies this
      ensures Valid() && (Now(), r) == Paused(old(Now()), name, paused)
    {
      var i := Find(agents, name);
      if i == |agents| {
        return Err(NoSuchAgent);
      }
      var a := agents[i];
      assert a in agents;
      if a.paused == paused {
        assert agents[i := a.(paused := paused)] == agents;
        return Ok;
      }
      Replace(i, a.(paused := paused));
      r := Ok;
    }

    method AddChannel(platform: string, given: map<string, string>) returns (r: Result)
      requires Valid()
      modifies this`secrets
      ensures Valid() && (Now(), r) == Added(old(Now()), platform, given)
    {
      if !Registered(platform) {
        return Err(UnknownPlatform);
      }
      var complete := CheckGiven(Required(platform), given);
      if !complete {
        return Err(MissingSecret);
      }
      WriteSecrets(Shared(platform), given);
      r := Ok;
    }

    method WriteSecrets(names: seq<string>, given: map<string, string>)
      modifies this`secrets
      ensures secrets == Written(old(secrets), names, given)
    {
      for i := 0 to |names|
        invariant secrets == Written(old(secrets), names[..i], given)
      {
        assert names[..i + 1][..i] == names[..i];
        if Present(given, names[i]) {
          secrets := secrets[names[i] := given[names[i]]];
        }
      }
      assert names[..|names|] == names;
    }

    method BindChannel(name: string, b: Binding) returns (r: Result)
      requires Valid()
      modifies this
      ensures Valid() && (Now(), r) == Bound(old(Now()), name, b)
    {
      if !Registered(b.platform) {
        return Err(UnknownPlatform);
      }
      if !Configured(b.platform) {
        return Err(NotConfigured);
      }
      var i := Find(agents, name);
      if i == |agents| {
        return Err(NoSuchAgent);
      }
      var a := agents[i];
      assert a in agents;
      if IsBoundTo(a, b.platform) {
        return Err(AlreadyBound);
      }
      if !SupportsRuntime(b.platform, ResolveRuntime(a.runtime, "")) {
        return Err(UnsupportedRuntime);
      }
      if !ValidateBinding(b.platform, a.kind, b.id) {
        return Err(InvalidID);
      }
      BoundGood(a, b);
      Replace(i, a.(bindings := a.bindings + [b]));
      r := Ok;
    }

    method UnbindChannel(name: string, platform: string) returns (r: Result)
      requires Valid()
      modifies this
      ensures Valid() && (Now(), r) == Unbound(old(Now()), name, platform)
    {
      if !Registered(platform) {
        return Err(UnknownPlatform);
      }
      var i := Find(agents, name);
      if i == |agents| {
        return Err(NoSuchAgent);
      }
      var a := agents[i];
      assert a in agents;
      if !IsBoundTo(a, platform) {
        return Err(NotBound);
      }
      StrippedIsClean(a, platform);
      var kept := FilterBindings(a.bindings, platform);
      Replace(i, a.(bindings := kept));
      r := Ok;
    }

    /** Strips the platform from every agent, regenerates the tables and deletes the platform's
        secrets, unless it is not configured. */
    method RemoveChannel(platform: string) returns (r: Result)
      requires Valid()
      modifies this
      ensures Valid() && (Now(), r) == Removed(old(Now()), platform)
      ensures !Configured(platform)
      ensures forall p :: p != platform ==> Configured(p) == old(Configured(p))
      ensures (forall a :: a in agents ==> !Mentions(a, platform))
              <==> old(Configured(platform)) || forall a :: a in old(agents) ==> !Mentions(a, platform)
    {
      ghost var before := Now();
      forall p
        ensures !HasCredentials(Removed(before, platform).0.secrets, platform)
        ensures p != platform ==>
                  (HasCredentials(Removed(before, platform).0.secrets, p) <==> HasCredentials(before.secrets, p))
      {
        RemovedExactly(before, platform, p);
      }
      RemovedExactly(before, platform, platform);
      r := Remove(platform);
    }

    method Remove(platform: string) returns (r: Result)
      requires Valid()
      modifies this
      ensures Valid() && (Now(), r) == Removed(old(Now()), platform)
    {
      if !Registered(platform) {
        return Err(UnknownPlatform);
      }
      if !Configured(platform) {
        return Ok;
      }
      StripEach(platform);
      Regenerate();
      DeleteSecrets(Shared(platform));
      r := Ok;
    }

    method DeleteSecrets(names: seq<string>)
      modifies this`secrets
      ensures secrets == old(secrets) - Elements(names)
    {
      for i := 0 to |names|
        invariant secrets == old(secrets) - Elements(names[..i])
      {
        assert Elements(names[..i + 1]) == Elements(names[..i]) + {names[i]};
        secrets := secrets - {names[i]};
      }
      assert names[..|names|] == names;
    }

    method StripEach(platform: string)
      requires GoodFleet(agents)
      modifies this`agents
      ensures agents == StripAll(old(agents), platform) && GoodFleet(agents)
    {
      var listed := agents;
      for i := 0 to |listed|
        invariant GoodFleet(agents) && |agents| == |listed|
        invariant forall k :: 0 <= k < i ==> agents[k] == Stripped(listed[k], platform)
        invariant forall k :: i <= k < |listed| ==> agents[k] == listed[k]
      {
        var a := listed[i];
        assert agents[i] == a && a in agents;
        if IsBoundTo(a, platform) {
          StrippedIsClean(a, platform);
          var kept := FilterBindings(a.bindings, platform);
          SavedInPlace(agents, i, a.(bindings := kept));
          Save(a.(bindings := kept));
        }
      }
    }
  }

  // ---- Whole runs ----

  method Apply(f: Fleet, op: Op) returns (r: Result)
    requires f.Valid() && (op.Provision? ==> GoodAgent(op.agent))
    modifies f
    ensures f.Valid() && (f.Now(), r) == Step(old(f.Now()), op)
  {
    r := Ok;
    match op
    case Provision(a) => f.Provision(a);
    case RemoveAgent(name) => f.RemoveAgent(name);
    case SetPaused(name, paused) => r := f.SetPaused(name, paused);
    case AddChannel(p, given) => r := f.AddChannel(p, given);
    case BindChannel(name, b) => r := f.BindChannel(name, b);
    case UnbindChannel(name, p) => r := f.UnbindChannel(name, p);
    case RemoveChannel(p) => r := f.RemoveChannel(p);
  }

  /** The fleet after any operations is the one the state machine says, and it is valid. */
  method Run(globalRuntime: string, ops: seq<Op>) returns (f: Fleet)
    requires GoodOps(ops)
    ensures fresh(f) && f.Valid() && f.globalRuntime == globalRuntime && f.Now() == FleetOf(ops)
  {
    f := new Fleet(globalRuntime);
    for i := 0 to |ops|
      invariant fresh(f) && f.Valid() && f.globalRuntime == globalRuntime && f.Now() == FleetOf(ops[..i])
    {
      assert ops[..i + 1][..i] == ops[..i];
      var ignored := Apply(f, ops[i]);
    }
    assert ops[..|ops|] == ops;
  }

  /** In a good fleet the tables read: an ID is routed if and only if some unpaused agent is
      bound to it, in the section of that agent's type. It goes to the last such agent by name,
      at its port, on the path of the one platform for which the ID is valid. */
  lemma RoutesOfGoodFleet(agents: seq<Agent>, g: string, s: Section, key: string)
    requires GoodFleet(agents)
    ensures var t := Table(Routes(agents, Loopback(g)), s);
            && (key in t <==> exists i :: 0 <= i < |agents| && Holds(agents[i], s, key))
            && (key in t ==> exists i: nat, p ::
                  && i < |agents| && Holds(agents[i], s, key) && Registered(p)
                  && (forall k :: i < k < |agents| ==> !Holds(agents[k], s, key))
                  && ValidateBinding(p, agents[i].kind, key)
                  && t[key] == Url("127.0.0.1", agents[i].port, WebhookPath(ResolveRuntime(agents[i].runtime, g), p)))
  {
    RoutingMeaning(agents, Loopback(g), s, key);
    var t := Table(Routes(agents, Loopback(g)), s);
    if key in t {
      var i: nat :| PointsAtLast(agents, Loopback(g), s, key, t[key], i);
      var a := agents[i];
      assert a in agents;
      var j :| 0 <= j < |a.bindings| && Routable(a.bindings[j]) && a.bindings[j].id == key
               && t[key] == TargetUrl(a, a.bindings[j].platform, Loopback(g));
      assert a.bindings[j] in a.bindings;
    }
  }

  /** Once no agent mentions a platform, no routing key is an ID of that platform and no URL
      ends in one of its webhook paths. */
  lemma UnmentionedUnrouted(agents: seq<Agent>, g: string, s: Section, key: string, platform: string)
    requires GoodFleet(agents) && Registered(platform)
    requires forall a :: a in agents ==> !Mentions(a, platform)
    requires key in Table(Routes(agents, Loopback(g)), s)
    ensures forall kind :: !ValidateBinding(platform, kind, key)
    ensures forall runtime :: Table(Routes(agents, Loopback(g)), s)[key].path != WebhookPath(runtime, platform)
  {
    RoutingMeaning(agents, Loopback(g), s, key);
    var url := Table(Routes(agents, Loopback(g)), s)[key];
    var i: nat :| PointsAtLast(agents, Loopback(g), s, key, url, i);
    var a := agents[i];
    assert a in agents;
    var j :| 0 <= j < |a.bindings| && Routable(a.bindings[j]) && a.bindings[j].id == key
             && url == TargetUrl(a, a.bindings[j].platform, Loopback(g));
    var b := a.bindings[j];
    assert b in a.bindings && b.platform != platform;
    forall kind
      ensures !ValidateBinding(platform, kind, key)
    {
      if ValidateBinding(platform, kind, key) {
        PlatformsDoNotCollide(platform, b.platform, kind, a.kind, key);
      }
    }
    forall runtime
      ensures url.path != WebhookPath(runtime, platform)
    {
      var resolved := ResolveRuntime(a.runtime, g);
      if WebhookPath(resolved, b.platform) == WebhookPath(runtime, platform) {
        PathsDoNotCollide(resolved, runtime, b.platform, platform);
      }
    }
  }

  /** Removing a configured platform leaves no agent, no routing key and no URL of it. */
  method RemoveConfigured(f: Fleet, platform: string) returns (r: Result)
    requires f.Valid() && Registered(platform) && f.Configured(platform)
    modifies f
    ensures r == Ok && f.Valid() && !f.Configured(platform)
    ensures forall a :: a in f.agents ==> !Mentions(a, platform)
    ensures forall key, kind :: key in f.routing.members || key in f.routing.channels ==> !ValidateBinding(platform, kind, key)
    ensures forall key, rt :: key in f.routing.members ==> f.routing.members[key].path != WebhookPath(rt, platform)
    ensures forall key, rt :: key in f.routing.channels ==> f.routing.channels[key].path != WebhookPath(rt, platform)
  {
    r := f.RemoveChannel(platform);
    forall key | key in f.routing.members
      ensures forall kind :: !ValidateBinding(platform, kind, key)
      ensures forall rt :: f.routing.members[key].path != WebhookPath(rt, platform)
    {
      UnmentionedUnrouted(f.agents, f.globalRuntime, Members, key, platform);
    }
    forall key | key in f.routing.channels
      ensures forall kind :: !ValidateBinding(platform, kind, key)
      ensures forall rt :: f.routing.channels[key].path != WebhookPath(rt, platform)
    {
      UnmentionedUnrouted(f.agents, f.globalRuntime, Section.Channels, key, platform);
    }
  }

  /** Unbinding undoes a bind that succeeded. */
  lemma UnboundUndoesBound(s: State, name: string, b: Binding)
    requires Bound(s, name, b).1.Ok?
    ensures Unbound(Bound(s, name, b).0, name, b.platform) == (s, Ok)
  {
    var i := Find(s.agents, name);
    var a := s.agents[i];
    var withB := a.(bindings := a.bindings + [b]);
    FindSaved(s.agents, i, withB);
    FilteredSnoc(a, b);
    assert s.agents[i := withB][i := a] == s.agents;
  }

  /** Agents and tables are as they were, whether the bind succeeded or not. */
  method BindThenUnbind(f: Fleet, name: string, b: Binding) returns (bound: Result, unbound: Result)
    requires f.Valid()
    modifies f
    ensures f.Valid() && f.Now() == old(f.Now()) && f.routing == old(f.routing)
    ensures bound == Bound(old(f.Now()), name, b).1
    ensures bound.Ok? ==> unbound.Ok?
  {
    ghost var before := f.Now();
    bound := f.BindChannel(name, b);
    unbound := bound;
    if bound.Ok? {
      UnboundUndoesBound(before, name, b);
      unbound := f.UnbindChannel(name, b.platform);
    }
  }

  /** Replacing a record by one of its name does not move it. */
  lemma {:induction false} FindSaved(agents: seq<Agent>, i: nat, a: Agent)
    requires i < |agents| && i == Find(agents, a.name)
    ensures Find(agents[i := a], a.name) == i
  {
    if i > 0 {
      FindSaved(agents[1..], i - 1, a);
      assert agents[i := a][1..] == agents[1..][i - 1 := a];
    }
  }

  lemma FilteredSnoc(a: Agent, b: Binding)
    requires !IsBoundTo(a, b.platform)
    ensures var bound := a.(bindings := a.bindings + [b]);
            IsBoundTo(bound, b.platform) && Stripped(bound, b.platform) == a
  {
    var bs := a.bindings + [b];
    assert bs[|a.bindings|] == b;
    assert bs[..|bs| - 1] == a.bindings;
    FilteredAll(a.bindings, b.platform);
  }

  lemma {:induction false} FilteredAll(bs: seq<Binding>, platform: string)
    requires forall i :: 0 <= i < |bs| ==> bs[i].platform != platform
    ensures Filtered(bs, platform) == bs
  {
    if bs != [] {
      FilteredAll(bs[..|bs| - 1], platform);
    }
  }

  /** What a bind takes: a platform that is known and configured, an agent that is there, not yet
      on the platform, of a runtime the platform works with, and an ID valid for its type. Then the
      agent has that binding besides its others, and nothing else has changed. */
  lemma BindsExactly(s: State, name: string, b: Binding)
    requires GoodFleet(s.agents)
    ensures var (t, r) := Bound(s, name, b);
            && (r.Ok? <==>
                  && Registered(b.platform) && HasCredentials(s.secrets, b.platform)
                  && exists a :: a in s.agents && a.name == name && Bindable(a, b))
            && (!r.Ok? ==> t == s)
            && (r.Ok? ==> t.secrets == s.secrets && forall a :: a in t.agents <==>
                  || (a in s.agents && a.name != name)
                  || exists was :: was in s.agents && was.name == name && a == was.(bindings := was.bindings + [b]))
  {
    var i := Find(s.agents, name);
    if i < |s.agents| {
      var was := s.agents[i];
      OnlyOne(s.agents, i);
      assert IsBoundTo(was, b.platform) <==> Mentions(was, b.platform);
      if Bound(s, name, b).1.Ok? {
        var now := was.(bindings := was.bindings + [b]);
        BoundGood(was, b);
        ReplacedGood(s.agents, i, now);
        SavedMembers(s.agents, now);
      }
    } else {
      assert forall a :: a in s.agents ==> a.name != name;
    }
  }

  /** Which refusal a bind meets: the platform is looked at first, then its tokens, then the agent,
      its bindings, its runtime, and last the ID. */
  lemma BindRefusals(s: State, name: string, b: Binding)
    ensures var (t, r) := Bound(s, name, b);
            var i := Find(s.agents, name);
            if !Registered(b.platform) then r == Err(UnknownPlatform)
            else if !HasCredentials(s.secrets, b.platform) then r == Err(NotConfigured)
            else if !Named(s.agents, name) then r == Err(NoSuchAgent)
            else if Mentions(s.agents[i], b.platform) then r == Err(AlreadyBound)
            else if b.platform == "telegram" && s.agents[i].runtime != "hermes" then r == Err(UnsupportedRuntime)
            else if !ValidateBinding(b.platform, s.agents[i].kind, b.id) then r == Err(InvalidID)
            else r == Ok
  {
    var i := Find(s.agents, name);
    if i < |s.agents| {
      assert IsBoundTo(s.agents[i], b.platform) <==> Mentions(s.agents[i], b.platform);
    }
  }

  predicate Bindable(a: Agent, b: Binding) {
    && !Mentions(a, b.platform)
    && (b.platform == "telegram" ==> a.runtime == "hermes")
    && ValidateBinding(b.platform, a.kind, b.id)
  }

  /** Records sorted by name have different names. */
  lemma OnlyOne(agents: seq<Agent>, i: nat)
    requires SortedByName(agents) && i < |agents|
    ensures agents[i] in agents && forall a :: a in agents && a.name == agents[i].name ==> a == agents[i]
  {
    LessIrreflexive(agents[i].name);
  }

  /** A bound ID of an unpaused agent is routed. */
  lemma BoundIsRouted(s: State, name: string, b: Binding, g: string)
    requires GoodFleet(s.agents) && Bound(s, name, b).1.Ok? && !s.agents[Find(s.agents, name)].paused
    ensures var t := Bound(s, name, b).0;
            b.id in Table(Routes(t.agents, Loopback(g)), SectionOf(s.agents[Find(s.agents, name)].kind))
  {
    var i := Find(s.agents, name);
    var t := Bound(s, name, b).0;
    var now := t.agents[i];
    assert now.bindings[|s.agents[i].bindings|] == b;
    RoutingMeaning(t.agents, Loopback(g), SectionOf(now.kind), b.id);
    assert Holds(t.agents[i], SectionOf(now.kind), b.id);
  }

  /** An unbinding is refused exactly without such a binding; otherwise the agent keeps its other
      bindings and nobody else changes. */
  lemma UnbindsExactly(s: State, name: string, platform: string)
    requires GoodFleet(s.agents)
    ensures var (t, r) := Unbound(s, name, platform);
            && (r.Ok? <==> Registered(platform) && exists a :: a in s.agents && a.name == name && Mentions(a, platform))
            && (!r.Ok? ==> t == s)
            && (forall a :: a in t.agents && a.name != name <==> a in s.agents && a.name != name)
            && (r.Ok? ==> forall a :: a in t.agents && a.name == name ==> !Mentions(a, platform))
  {
    var i := Find(s.agents, name);
    if i < |s.agents| {
      var was := s.agents[i];
      OnlyOne(s.agents, i);
      assert IsBoundTo(was, platform) <==> Mentions(was, platform);
      StrippedIsClean(was, platform);
      var now := Stripped(was, platform);
      ReplacedGood(s.agents, i, now);
      SavedMembers(s.agents, now);
    } else {
      assert forall a :: a in s.agents ==> a.name != name;
    }
  }

  /** Pausing an agent takes exactly its IDs out of the tables: a key is routed afterwards if and
      only if another agent holds it. Unpausing brings them back: a key is routed if and only if
      another agent holds it or this one is bound under it. */
  lemma PausedIsUnrouted(s: State, name: string, g: WebhookResolver, sec: Section, key: string)
    requires GoodFleet(s.agents) && Named(s.agents, name)
    ensures Paused(s, name, true).1.Ok? && Paused(s, name, false).1.Ok?
    ensures key in Table(Routes(Paused(s, name, true).0.agents, g), sec) <==> OthersHold(s.agents, name, sec, key)
    ensures key in Table(Routes(Paused(s, name, false).0.agents, g), sec)
            <==> OthersHold(s.agents, name, sec, key)
                 || Holds(s.agents[Find(s.agents, name)].(paused := false), sec, key)
  {
    PausedHolders(s, name, true, g, sec, key);
    PausedHolders(s, name, false, g, sec, key);
  }

  predicate OthersHold(agents: seq<Agent>, name: string, sec: Section, key: string) {
    exists k :: 0 <= k < |agents| && agents[k].name != name && Holds(agents[k], sec, key)
  }

  lemma PausedHolders(s: State, name: string, paused: bool, g: WebhookResolver, sec: Section, key: string)
    requires GoodFleet(s.agents) && Named(s.agents, name)
    ensures key in Table(Routes(Paused(s, name, paused).0.agents, g), sec)
            <==> OthersHold(s.agents, name, sec, key)
                 || Holds(s.agents[Find(s.agents, name)].(paused := paused), sec, key)
  {
    var i := Find(s.agents, name);
    var after := Paused(s, name, paused).0.agents;
    RoutingMeaning(after, g, sec, key);
    OnlyOne(s.agents, i);
    assert forall k :: 0 <= k < |after| && k != i ==> after[k] == s.agents[k] && after[k] in s.agents;
    assert after[i] == s.agents[i].(paused := paused);
    if OthersHold(s.agents, name, sec, key) {
      var k :| 0 <= k < |s.agents| && s.agents[k].name != name && Holds(s.agents[k], sec, key);
      assert Holds(after[k], sec, key);
    }
    if k :| 0 <= k < |after| && k != i && Holds(after[k], sec, key) {
      LessIrreflexive(name);
      assert s.agents[k].name != name;
    }
  }

  /** An addition is refused exactly for an unknown platform or a missing required secret. Then
      each of the platform's secrets that is given is stored, and no other secret changes. */
  lemma AddsExactly(s: State, platform: string, given: map<string, string>)
    ensures var (t, r) := Added(s, platform, given);
            && (r.Ok? <==> Registered(platform) && forall n :: n in Required(platform) ==> Present(given, n))
            && t.agents == s.agents
            && (!r.Ok? ==> t == s)
            && (r.Ok? ==> forall n ::
                  if n in Shared(platform) && Present(given, n) then n in t.secrets && t.secrets[n] == given[n]
                  else (n in t.secrets <==> n in s.secrets) && (n in s.secrets ==> t.secrets[n] == s.secrets[n]))
  {
    var req := Required(platform);
    assert forall i :: 0 <= i < |req| ==> req[i] in req;
    WrittenExactly(s.secrets, Shared(platform), given);
  }

  lemma {:induction false} WrittenExactly(secrets: map<string, string>, names: seq<string>, given: map<string, string>)
    ensures forall n ::
              var t := Written(secrets, names, given);
              if n in names && Present(given, n) then n in t && t[n] == given[n]
              else (n in t <==> n in secrets) && (n in secrets ==> t[n] == secrets[n])
  {
    if names != [] {
      WrittenExactly(secrets, names[..|names| - 1], given);
      assert names == names[..|names| - 1] + [names[|names| - 1]];
    }
  }

  /** The exception is real: provisioned with a Slack binding while Slack is not configured, an
      agent keeps it, and its route, through a removal that reports success. */
  method RemovalSkipsUnconfigured(port: int) returns (f: Fleet, r: Result)
    ensures r == Ok && f.Valid() && !f.Configured(SLACK)
    ensures exists a :: a in f.agents && Mentions(a, SLACK)
    ensures "U01234567" in f.routing.members
  {
    f := new Fleet("");
    var b := Binding(SLACK, "U01234567", "");
    var a := Agent("aria", User, "", [b], port, false);
    assert |b.id| == 9 && forall i :: 1 <= i < 9 ==> IsDigit(b.id[i]);
    assert ValidateBinding(SLACK, User, b.id);
    f.Provision(a);
    r := f.RemoveChannel(SLACK);
    assert f.agents == [a];
    assert a in f.agents && a.bindings[0] == b;
    assert Mentions(a, SLACK);
    RoutingMeaning(f.agents, Loopback(""), Members, b.id);
    assert Holds(f.agents[0], Members, b.id);
  }
}
