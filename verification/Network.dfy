/** Host addressing: gateway ports, IPv4 subnets and the per-agent network plan
    (pkg/common/ports.go, pkg/provider/managedhost/network.go). */
module Network {

  const BASE_GATEWAY_PORT: int := 18789

  type Octet = n: int | 0 <= n < 256

  datatype IPv4 = IPv4(a: Octet, b: Octet, c: Octet, d: Octet) {
    /** The address as a 32-bit number, most significant octet first. */
    function Value(): (v: int)
      ensures 0 <= v < 0x1_0000_0000
    {
      ((a * 256 + b) * 256 + c) * 256 + d
    }
  }

  /** An IPv4 prefix of RFC 4632 section 3.1; this scheme only ever uses /24. */
  datatype Subnet24 = Subnet24(base: IPv4) {
    /** An address is in the prefix when their first 24 bits agree. */
    predicate Contains(ip: IPv4) {
      ip.Value() / 256 == base.Value() / 256
    }
  }

  datatype AgentNetwork = AgentNetwork(subnet: Subnet24, gatewayIP: IPv4, agentIP: IPv4, proxyIP: IPv4)

  datatype Plan = Planned(net: AgentNetwork) | OutOfRange(idx: int)

  /** The plan for an agent whose published host port is `hostPort`. */
  function PlanAgentNetwork(hostPort: int, basePort: int): (p: Plan)
    ensures p.Planned? <==> basePort <= hostPort <= basePort + 255
  {
    var idx := hostPort - basePort;
    if idx < 0 || idx > 255 then
      OutOfRange(idx)
    else
      Planned(AgentNetwork(
                Subnet24(IPv4(10, 99, idx, 0)),
                IPv4(10, 99, idx, 1),
                IPv4(10, 99, idx, 2),
                IPv4(10, 99, idx, 3)))
  }

  /** In the plan's subnet the gateway is host 1, the agent host 2 and the proxy host 3, and no
      address of it lies in 10.0.0.0/24 or in 172.16.0.0/12. */
  lemma PlanAddresses(hostPort: int, basePort: int, ip: IPv4)
    requires PlanAgentNetwork(hostPort, basePort).Planned?
    ensures var n := PlanAgentNetwork(hostPort, basePort).net;
            && n.subnet.base.Value() == (10 * 256 + 99) * 0x1_0000 + (hostPort - basePort) * 256
            && n.gatewayIP.Value() == n.subnet.base.Value() + 1
            && n.agentIP.Value() == n.subnet.base.Value() + 2
            && n.proxyIP.Value() == n.subnet.base.Value() + 3
            && (n.subnet.Contains(ip) ==> ip.Value() / 256 != 10 * 0x1_0000 && ip.Value() / 0x10_0000 != 172 * 16 + 1)
  {
    PrefixOf(hostPort - basePort, 0);
  }

  /** Every address of a plan lies in the plan's subnet, the three are distinct,
      and plans made from different ports have no address in common. */
  lemma PlansAreDisjoint(p: int, q: int, basePort: int, ip: IPv4)
    requires PlanAgentNetwork(p, basePort).Planned? && PlanAgentNetwork(q, basePort).Planned?
    ensures var n := PlanAgentNetwork(p, basePort).net;
            && n.subnet.Contains(n.gatewayIP) && n.subnet.Contains(n.agentIP) && n.subnet.Contains(n.proxyIP)
            && n.gatewayIP != n.agentIP && n.agentIP != n.proxyIP && n.gatewayIP != n.proxyIP
    ensures p != q ==>
              !(PlanAgentNetwork(p, basePort).net.subnet.Contains(ip) &&
                PlanAgentNetwork(q, basePort).net.subnet.Contains(ip))
  {
    PrefixOf(p - basePort, 0);
    PrefixOf(p - basePort, 1);
    PrefixOf(p - basePort, 2);
    PrefixOf(p - basePort, 3);
    PrefixOf(q - basePort, 0);
  }

  /** The first 24 bits of 10.99.idx.host determine idx. */
  lemma PrefixOf(idx: int, host: int)
    requires 0 <= idx < 256 && 0 <= host < 256
    ensures IPv4(10, 99, idx, host).Value() / 256 == (10 * 256 + 99) * 256 + idx
  {
    var hi := (10 * 256 + 99) * 256 + idx;
    assert IPv4(10, 99, idx, host).Value() == hi * 256 + host;
  }

  /** The record fields of an agent that port assignment reads. */
  datatype PortHolder = PortHolder(name: string, port: int)

  /** Every port in use is below `next`, and `next` is the least such number not under the base. */
  ghost predicate IsNextPort(agents: seq<PortHolder>, next: int) {
    && BASE_GATEWAY_PORT <= next
    && (forall i :: 0 <= i < |agents| ==> agents[i].port < next)
    && (next == BASE_GATEWAY_PORT || exists i :: 0 <= i < |agents| && agents[i].port == next - 1)
  }

  lemma NextPortUnique(agents: seq<PortHolder>, m: int, n: int)
    requires IsNextPort(agents, m) && IsNextPort(agents, n)
    ensures m == n
  {
  }

  function NextPort(agents: seq<PortHolder>): (next: int)
    ensures IsNextPort(agents, next)
  {
    if agents == [] then
      BASE_GATEWAY_PORT
    else
      var last := agents[|agents| - 1].port;
      var rest := NextPort(agents[..|agents| - 1]);
      assert forall i :: 0 <= i < |agents| - 1 ==> agents[..|agents| - 1][i] == agents[i];
      if last >= rest then
        assert agents[|agents| - 1].port == last;
        last + 1
      else
        rest
  }

  method NextAvailablePort(agents: seq<PortHolder>) returns (next: int)
    ensures IsNextPort(agents, next)
    ensures next == NextPort(agents)
  {
    var maxPort := BASE_GATEWAY_PORT - 1;
    for i := 0 to |agents|
      invariant BASE_GATEWAY_PORT - 1 <= maxPort
      invariant forall j :: 0 <= j < i ==> agents[j].port <= maxPort
      invariant maxPort == BASE_GATEWAY_PORT - 1 || exists j :: 0 <= j < i && agents[j].port == maxPort
    {
      if agents[i].port > maxPort {
        maxPort := agents[i].port;
      }
    }
    next := maxPort + 1;
    NextPortUnique(agents, next, NextPort(agents));
  }
}
