/** Runs of a whole fleet: agents come and go with auto-assigned ports while their egress
    rules are edited, command by command, in one shared chain. */
module Fleet {
  import opened Sequences
  import opened Network
  import opened Iptables
  import opened ChainRuns

  datatype Op = Provision(name: string) | Remove(name: string) | Edit(action: Action)

  datatype FleetState = FleetState(agents: seq<PortHolder>, sys: System)

  /** The subnet an agent address is planned together with. */
  function SubnetOf(ip: IPv4): Subnet24 {
    Subnet24(IPv4(ip.a, ip.b, ip.c, 0))
  }

  function Without(agents: seq<PortHolder>, name: string): seq<PortHolder> {
    Rejected(agents, (a: PortHolder) => a.name == name)
  }

  /** A provision saves the agent's record under its name, in place of a record already
      there, before the network is planned: the record stays even when there is no plan. */
  function Step(s: FleetState, op: Op): FleetState {
    match op
    case Provision(name) =>
      s.(agents := Without(s.agents, name) + [PortHolder(name, NextPort(s.agents))])
    case Remove(name) => s.(agents := Without(s.agents, name))
    case Edit(action) => s.(sys := ChainRuns.Step(s.sys, SubnetOf, action))
  }

  function Run(foreign: Chain, ops: seq<Op>): FleetState {
    if ops == [] then FleetState([], Start(foreign))
    else Step(Run(foreign, ops[..|ops| - 1]), ops[|ops| - 1])
  }

  function Provisions(ops: seq<Op>): nat {
    if ops == [] then 0
    else Provisions(ops[..|ops| - 1]) + if ops[|ops| - 1].Provision? then 1 else 0
  }

  function Edits(ops: seq<Op>): seq<Action> {
    if ops == [] then []
    else
      var before := Edits(ops[..|ops| - 1]);
      var last := ops[|ops| - 1];
      if last.Edit? then before + [last.action] else before
  }

  ghost predicate Distinct(agents: seq<PortHolder>) {
    forall i, j :: 0 <= i < j < |agents| ==>
      agents[i].port != agents[j].port && agents[i].name != agents[j].name
  }

  ghost predicate PortsBelow(agents: seq<PortHolder>, limit: int) {
    forall i :: 0 <= i < |agents| ==> BASE_GATEWAY_PORT <= agents[i].port < limit
  }

  lemma WithoutMembers(agents: seq<PortHolder>, name: string)
    ensures forall r :: r in Without(agents, name) <==> r in agents && r.name != name
    ensures Distinct(agents) ==> Distinct(Without(agents, name))
  {
    var apart := (a: PortHolder, b: PortHolder) => a.port != b.port && a.name != b.name;
    RejectedMembers(agents, (a: PortHolder) => a.name == name, apart);
    assert Distinct(agents) ==> Pairwise(agents, apart);
    assert Pairwise(Without(agents, name), apart) ==> Distinct(Without(agents, name));
  }

  lemma WithoutBelow(agents: seq<PortHolder>, name: string, limit: int)
    requires PortsBelow(agents, limit)
    ensures PortsBelow(Without(agents, name), limit)
  {
    var rest := Without(agents, name);
    WithoutMembers(agents, name);
    forall k | 0 <= k < |rest|
      ensures BASE_GATEWAY_PORT <= rest[k].port < limit
    {
      assert rest[k] in agents;
    }
  }

  /** The record a provision adds takes a port nobody else holds. */
  lemma FreshRecord(agents: seq<PortHolder>, name: string, limit: int)
    requires Distinct(agents) && PortsBelow(agents, limit) && BASE_GATEWAY_PORT <= limit
    ensures var after := Without(agents, name) + [PortHolder(name, NextPort(agents))];
            Distinct(after) && PortsBelow(after, limit + 1)
  {
    var rest := Without(agents, name);
    WithoutBelow(agents, name, limit);
    WithoutMembers(agents, name);
    forall k | 0 <= k < |rest|
      ensures rest[k].port != NextPort(agents) && rest[k].name != name
    {
      assert rest[k] in agents;
    }
  }

  /** Ports and names of live agents are pairwise distinct, and the highest port in use is
      bounded by the number of provisions so far. */
  lemma {:induction false} ReachableAgents(foreign: Chain, ops: seq<Op>)
    ensures Distinct(Run(foreign, ops).agents)
    ensures PortsBelow(Run(foreign, ops).agents, BASE_GATEWAY_PORT + Provisions(ops))
  {
    if ops != [] {
      var before := ops[..|ops| - 1];
      ReachableAgents(foreign, before);
      var agents := Run(foreign, before).agents;
      match ops[|ops| - 1]
      case Provision(name) =>
        FreshRecord(agents, name, BASE_GATEWAY_PORT + Provisions(before));
      case Remove(name) =>
        WithoutMembers(agents, name);
        WithoutBelow(agents, name, BASE_GATEWAY_PORT + Provisions(before));
      case Edit(action) =>
    }
  }

  /** The next provision finds a plan exactly when no live agent holds the last port of the
      scheme or one beyond it, so the first 256 provisions of any run all find one. */
  lemma PlanningSucceeds(foreign: Chain, ops: seq<Op>)
    ensures var s := Run(foreign, ops);
            && (PlanAgentNetwork(NextPort(s.agents), BASE_GATEWAY_PORT).Planned?
                <==> forall i :: 0 <= i < |s.agents| ==> s.agents[i].port < BASE_GATEWAY_PORT + 255)
            && (Provisions(ops) < 256 ==> PlanAgentNetwork(NextPort(s.agents), BASE_GATEWAY_PORT).Planned?)
            && (Provisions(ops) <= 256 ==> forall i :: 0 <= i < |s.agents| ==>
                  PlanAgentNetwork(s.agents[i].port, BASE_GATEWAY_PORT).Planned?)
  {
    ReachableAgents(foreign, ops);
  }

  /** The shared chain of a fleet run is the chain of the run of its edits. */
  lemma {:induction false} ChainOfRun(foreign: Chain, ops: seq<Op>)
    ensures Run(foreign, ops).sys == ChainRuns.Run(Start(foreign), SubnetOf, Edits(ops))
  {
    if ops != [] {
      var before := ops[..|ops| - 1];
      ChainOfRun(foreign, before);
      if ops[|ops| - 1].Edit? {
        var edits := Edits(before) + [ops[|ops| - 1].action];
        assert edits[..|edits| - 1] == Edits(before);
      }
    }
  }

  function NetworkOf(a: PortHolder): AgentNetwork
    requires PlanAgentNetwork(a.port, BASE_GATEWAY_PORT).Planned?
  {
    PlanAgentNetwork(a.port, BASE_GATEWAY_PORT).net
  }

  /** Fleet isolation. In every reachable fleet two live agents with plans have disjoint
      subnets, and while any rule of one agent is in the chain (from the first command of its Add
      to the last of its Remove) a new packet from it to any address of the other's subnet is
      dropped unless it is a DNS packet.
      The packet is dropped whatever foreign rules the chain holds. */
  lemma FleetIsolation(foreign: Chain, ops: seq<Op>, i: int, j: int,
                       other: (int, Packet) -> bool, p: Packet)
    requires AllForeign(foreign)
    requires var s := Run(foreign, ops);
             && 0 <= i < |s.agents| && 0 <= j < |s.agents| && i != j
             && PlanAgentNetwork(s.agents[i].port, BASE_GATEWAY_PORT).Planned?
             && PlanAgentNetwork(s.agents[j].port, BASE_GATEWAY_PORT).Planned?
    ensures var s := Run(foreign, ops);
            && s.agents[i].port != s.agents[j].port
            && var from, to := NetworkOf(s.agents[i]), NetworkOf(s.agents[j]);
               && (forall ip :: !(from.subnet.Contains(ip) && to.subnet.Contains(ip)))
               && (p.src == from.agentIP && to.subnet.Contains(p.dst) && !p.established &&
                   !(p.dport == 53 && (p.proto == Udp || p.proto == Tcp)) &&
                   Level(s.sys.chain, from.agentIP) < SPECS
                   ==> Eval(s.sys.chain, other, p) == Dropped)
  {
    var s := Run(foreign, ops);
    ReachableAgents(foreign, ops);
    var from, to := NetworkOf(s.agents[i]), NetworkOf(s.agents[j]);
    forall ip: IPv4
      ensures !(from.subnet.Contains(ip) && to.subnet.Contains(ip))
    {
      PlansAreDisjoint(s.agents[i].port, s.agents[j].port, BASE_GATEWAY_PORT, ip);
    }
    ChainOfRun(foreign, ops);
    if p.src == from.agentIP && to.subnet.Contains(p.dst) && !p.established &&
       !(p.dport == 53 && (p.proto == Udp || p.proto == Tcp)) &&
       Level(s.sys.chain, from.agentIP) < SPECS
    {
      assert SubnetOf(p.src) == from.subnet;
      ReachableVerdict(SubnetOf, foreign, Edits(ops), other, p);
    }
  }

  lemma {:induction false} EditsConcat(a: seq<Op>, b: seq<Op>)
    ensures Edits(a + b) == Edits(a) + Edits(b)
  {
    if b == [] {
      assert a + b == a;
    } else {
      assert (a + b)[..|a + b| - 1] == a + b[..|b| - 1];
      EditsConcat(a, b[..|b| - 1]);
    }
  }

  lemma AddHasBegun(foreign: Chain, before: seq<Op>, rest: seq<Op>, ip: IPv4)
    requires AllForeign(foreign) && Advances(Edits(rest), ip) >= 1
    requires forall k :: 0 <= k < |Edits(rest)| ==> !Starts(Edits(rest)[k], ip)
    ensures Level(Run(foreign, before + [Edit(StartAdd(ip))] + rest).sys.chain, ip) < SPECS
  {
    var start := Edit(StartAdd(ip));
    ChainOfRun(foreign, before + [start] + rest);
    EditsConcat(before + [start], rest);
    EditsConcat(before, [start]);
    assert [start][..0] == [];
    assert Edits([start]) == [StartAdd(ip)];
    AddIsAt(SubnetOf, foreign, Edits(before), Edits(rest), ip);
  }

  /** Isolation from the operations alone: once an agent's Add has been begun and has had a turn,
      with nothing begun for its address since, its new non-DNS packets to any other agent's
      subnet are dropped, whatever else the fleet has done before, meanwhile and after. */
  lemma IsolatedOnceAdded(foreign: Chain, before: seq<Op>, rest: seq<Op>, i: int, j: int,
                          other: (int, Packet) -> bool, p: Packet)
    requires AllForeign(foreign)
    requires var s := Run(foreign, before + [Edit(StartAdd(p.src))] + rest);
             && 0 <= i < |s.agents| && 0 <= j < |s.agents| && i != j
             && PlanAgentNetwork(s.agents[i].port, BASE_GATEWAY_PORT).Planned?
             && PlanAgentNetwork(s.agents[j].port, BASE_GATEWAY_PORT).Planned?
             && p.src == NetworkOf(s.agents[i]).agentIP && NetworkOf(s.agents[j]).subnet.Contains(p.dst)
    requires !p.established && !(p.dport == 53 && (p.proto == Udp || p.proto == Tcp))
    requires Advances(Edits(rest), p.src) >= 1
    requires forall k :: 0 <= k < |Edits(rest)| ==> !Starts(Edits(rest)[k], p.src)
    ensures Eval(Run(foreign, before + [Edit(StartAdd(p.src))] + rest).sys.chain, other, p) == Dropped
  {
    AddHasBegun(foreign, before, rest, p.src);
    FleetIsolation(foreign, before + [Edit(StartAdd(p.src))] + rest, i, j, other, p);
  }

  /** What the steps do to the records: a provisioned agent is there, on the next port; a removed
      one is gone; everybody else is as before. */
  lemma StepRecords(s: FleetState, op: Op)
    ensures op.Provision? ==>
              forall r :: r in Step(s, op).agents <==>
                            r == PortHolder(op.name, NextPort(s.agents)) || (r in s.agents && r.name != op.name)
    ensures op.Remove? ==> forall r :: r in Step(s, op).agents <==> r in s.agents && r.name != op.name
    ensures op.Edit? ==> Step(s, op).agents == s.agents
  {
    if !op.Edit? {
      WithoutMembers(s.agents, op.name);
    }
  }
}
