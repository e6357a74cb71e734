/** The egress rules of one agent in the shared DOCKER-USER chain
    (pkg/provider/iptables/rules.go): an ordered, first-match chain edited one
    iptables command at a time by check-before-insert and by delete. */
module Iptables {
  import opened Network

  datatype Proto = Udp | Tcp | OtherProto

  datatype Packet = Packet(src: IPv4, dst: IPv4, proto: Proto, dport: nat, established: bool)

  datatype Cond = ToSubnet(net: Subnet24) | ConnEstablished | UdpDns | TcpDns | Always

  datatype Target = Return | Drop

  /** A rule is one of ours, or one that somebody else put into the chain. */
  datatype Rule = Egress(src: IPv4, cond: Cond, target: Target) | Foreign(id: int)

  type Chain = seq<Rule>

  predicate Holds(c: Cond, p: Packet) {
    match c
    case ToSubnet(net) => net.Contains(p.dst)
    case ConnEstablished => p.established
    case UdpDns => p.proto == Udp && p.dport == 53
    case TcpDns => p.proto == Tcp && p.dport == 53
    case Always => true
  }

  function EgressRuleSpecs(ip: IPv4, net: Subnet24): seq<Rule> {
    [Egress(ip, ToSubnet(net), Return),
     Egress(ip, ConnEstablished, Return),
     Egress(ip, UdpDns, Return),
     Egress(ip, TcpDns, Return),
     Egress(ip, Always, Drop)]
  }

  const SPECS: nat := 5

  // ---- Single iptables commands ----

  datatype Cmd =
    | EnsureRule(rule: Rule)  // iptables -C rule || iptables -I rule
    | DeleteRule(rule: Rule)  // iptables -D rule || true

  /** `iptables -D` removes the first rule equal to the given one. */
  function DeleteFirst(c: Chain, r: Rule): Chain {
    if c == [] then []
    else if c[0] == r then c[1..]
    else [c[0]] + DeleteFirst(c[1..], r)
  }

  function Exec(cmd: Cmd, c: Chain): Chain {
    match cmd
    case EnsureRule(r) => if r in c then c else [r] + c
    case DeleteRule(r) => DeleteFirst(c, r)
  }

  function ExecAll(cmds: seq<Cmd>, c: Chain): Chain {
    if cmds == [] then c else ExecAll(cmds[1..], Exec(cmds[0], c))
  }

  // ---- The command builders ----

  /** What net.ParseIP makes of the container IP argument. */
  datatype IPArg = EmptyIP | MalformedIP | Addr(ip: IPv4)

  /** What net.ParseCIDR makes of the subnet argument. */
  datatype NetArg = MalformedNet | Net(net: Subnet24)

  datatype CmdResult = Commands(cmds: seq<Cmd>) | InvalidIP | InvalidCIDR

  /** Position k of the insertion program handles spec 4-k, so the terminal DROP
      goes in first and every RETURN is pushed above it. */
  function AddProgram(ip: IPv4, net: Subnet24): (p: seq<Cmd>)
    ensures |p| == SPECS
    ensures forall k :: 0 <= k < SPECS ==> p[k] == EnsureRule(EgressRuleSpecs(ip, net)[SPECS - 1 - k])
  {
    var s := EgressRuleSpecs(ip, net);
    [EnsureRule(s[4]), EnsureRule(s[3]), EnsureRule(s[2]), EnsureRule(s[1]), EnsureRule(s[0])]
  }

  function RemoveProgram(ip: IPv4, net: Subnet24): (p: seq<Cmd>)
    ensures |p| == SPECS
    ensures forall k :: 0 <= k < SPECS ==> p[k] == DeleteRule(EgressRuleSpecs(ip, net)[k])
  {
    var s := EgressRuleSpecs(ip, net);
    [DeleteRule(s[0]), DeleteRule(s[1]), DeleteRule(s[2]), DeleteRule(s[3]), DeleteRule(s[4])]
  }

  method AddRulesCmd(ip: IPArg, net: NetArg) returns (r: CmdResult)
    ensures !ip.Addr? ==> r == InvalidIP
    ensures ip.Addr? && !net.Net? ==> r == InvalidCIDR
    ensures ip.Addr? && net.Net? ==> r == Commands(AddProgram(ip.ip, net.net))
  {
    if !ip.Addr? {
      return InvalidIP;
    }
    if !net.Net? {
      return InvalidCIDR;
    }
    var specs := EgressRuleSpecs(ip.ip, net.net);
    var cmds: seq<Cmd> := [];
    var i := |specs| - 1;
    while i >= 0
      invariant -1 <= i < SPECS
      invariant cmds == AddProgram(ip.ip, net.net)[..SPECS - 1 - i]
    {
      cmds := cmds + [EnsureRule(specs[i])];
      i := i - 1;
    }
    r := Commands(cmds);
  }

  method RemoveRulesCmd(ip: IPArg, net: NetArg) returns (r: CmdResult)
    ensures ip.EmptyIP? ==> r == Commands([])
    ensures ip.MalformedIP? ==> r == InvalidIP
    ensures ip.Addr? && !net.Net? ==> r == InvalidCIDR
    ensures ip.Addr? && net.Net? ==> r == Commands(RemoveProgram(ip.ip, net.net))
  {
    if ip.EmptyIP? {
      return Commands([]);
    }
    if !ip.Addr? {
      return InvalidIP;
    }
    if !net.Net? {
      return InvalidCIDR;
    }
    var specs := EgressRuleSpecs(ip.ip, net.net);
    var cmds: seq<Cmd> := [];
    for i := 0 to |specs|
      invariant cmds == RemoveProgram(ip.ip, net.net)[..i]
    {
      cmds := cmds + [DeleteRule(specs[i])];
    }
    r := Commands(cmds);
  }

  // ---- One agent's share of the chain ----

  /** The rules of the chain whose source is `ip`, in chain order. */
  function Mine(c: Chain, ip: IPv4): Chain {
    if c == [] then []
    else if c[0].Egress? && c[0].src == ip then [c[0]] + Mine(c[1..], ip)
    else Mine(c[1..], ip)
  }

  ghost predicate AllEgress(c: Chain) {
    forall i :: 0 <= i < |c| ==> c[i].Egress?
  }

  ghost predicate AllForeign(c: Chain) {
    forall i :: 0 <= i < |c| ==> c[i].Foreign?
  }

  lemma {:induction false} MineConcat(a: Chain, b: Chain, ip: IPv4)
    ensures Mine(a + b, ip) == Mine(a, ip) + Mine(b, ip)
  {
    if a == [] {
      assert a + b == b;
    } else {
      assert (a + b)[1..] == a[1..] + b;
      MineConcat(a[1..], b, ip);
    }
  }

  lemma {:induction false} MineForeign(f: Chain, ip: IPv4)
    requires AllForeign(f)
    ensures Mine(f, ip) == []
  {
    if f != [] {
      MineForeign(f[1..], ip);
    }
  }

  lemma {:induction false} MineMember(c: Chain, r: Rule)
    requires r.Egress?
    ensures r in c <==> r in Mine(c, r.src)
  {
    if c != [] {
      MineMember(c[1..], r);
      assert c == [c[0]] + c[1..];
    }
  }

  lemma {:induction false} MineDelete(c: Chain, r: Rule, ip: IPv4)
    requires r.Egress?
    ensures Mine(DeleteFirst(c, r), ip) ==
            if r.src == ip then DeleteFirst(Mine(c, ip), r) else Mine(c, ip)
  {
    if c != [] && c[0] != r {
      MineDelete(c[1..], r, ip);
      MineConcat([c[0]], DeleteFirst(c[1..], r), ip);
      assert Mine([c[0]], ip) == if c[0].Egress? && c[0].src == ip then [c[0]] else [];
    }
  }

  lemma {:induction false} DeleteKeepsForeign(c: Chain, f: Chain, r: Rule)
    requires AllEgress(c) && AllForeign(f) && r.Egress?
    ensures DeleteFirst(c + f, r) == DeleteFirst(c, r) + f
    ensures AllEgress(DeleteFirst(c, r))
  {
    if c == [] {
      assert c + f == f;
      DeleteAbsent(f, r);
    } else {
      assert (c + f)[1..] == c[1..] + f;
      DeleteKeepsForeign(c[1..], f, r);
    }
  }

  lemma {:induction false} DeleteAbsent(c: Chain, r: Rule)
    requires r !in c
    ensures DeleteFirst(c, r) == c
  {
    if c != [] {
      DeleteAbsent(c[1..], r);
      assert c == [c[0]] + c[1..];
    }
  }

  /** Deleting spec i from the suffix of specs starting at k. */
  lemma DeleteFromSuffix(ip: IPv4, net: Subnet24, k: nat, i: nat)
    requires k <= SPECS && i < SPECS && k >= i
    ensures var s := EgressRuleSpecs(ip, net);
            DeleteFirst(s[k..], s[i]) == if k == i then s[k + 1..] else s[k..]
  {
    var s := EgressRuleSpecs(ip, net);
    if k != i {
      assert s[i] !in s[k..];
      DeleteAbsent(s[k..], s[i]);
    }
  }

  /** `level` specs of `ip` are missing and the rest stand in spec order. */
  ghost predicate AtLevel(c: Chain, ip: IPv4, net: Subnet24, level: nat) {
    level <= SPECS && Mine(c, ip) == EgressRuleSpecs(ip, net)[level..]
  }

  /** Everything the editor ever puts into the chain stays above everybody else's rules. */
  ghost predicate Layered(c: Chain, foreign: Chain) {
    && |foreign| <= |c|
    && c[|c| - |foreign|..] == foreign
    && AllEgress(c[..|c| - |foreign|])
  }

  /** Pushing a rule on top changes one agent's share and nobody else's. */
  lemma PushRule(c: Chain, foreign: Chain, r: Rule)
    requires Layered(c, foreign) && r.Egress?
    ensures Layered([r] + c, foreign)
    ensures Mine([r] + c, r.src) == [r] + Mine(c, r.src)
    ensures forall other: IPv4 :: other != r.src ==> Mine([r] + c, other) == Mine(c, other)
  {
    var c' := [r] + c;
    assert c'[1..] == c;
    assert c'[|c'| - |foreign|..] == foreign;
    assert c'[..|c'| - |foreign|] == [r] + c[..|c| - |foreign|];
  }

  lemma EnsureStep(c: Chain, foreign: Chain, ip: IPv4, net: Subnet24, i: nat, level: nat)
    requires Layered(c, foreign)
    requires i < SPECS && AtLevel(c, ip, net, level) && level <= i + 1
    ensures var c' := Exec(EnsureRule(EgressRuleSpecs(ip, net)[i]), c);
            && Layered(c', foreign)
            && AtLevel(c', ip, net, if level <= i then level else i)
            && forall other: IPv4 :: other != ip ==> Mine(c', other) == Mine(c, other)
  {
    var s := EgressRuleSpecs(ip, net);
    var r := s[i];
    MineMember(c, r);
    if level <= i {
      assert s[level..][i - level] == r;
    } else {
      assert r !in s[i + 1..];
      PushRule(c, foreign, r);
      assert s[i..] == [r] + s[i + 1..];
    }
  }

  lemma DeleteStep(c: Chain, foreign: Chain, ip: IPv4, net: Subnet24, i: nat, level: nat)
    requires Layered(c, foreign) && AllForeign(foreign)
    requires i < SPECS && AtLevel(c, ip, net, level) && level >= i
    ensures var c' := Exec(DeleteRule(EgressRuleSpecs(ip, net)[i]), c);
            && Layered(c', foreign)
            && AtLevel(c', ip, net, if level == i then i + 1 else level)
            && forall other: IPv4 :: other != ip ==> Mine(c', other) == Mine(c, other)
  {
    var r := EgressRuleSpecs(ip, net)[i];
    var own := c[..|c| - |foreign|];
    assert c == own + foreign;
    DeleteKeepsForeign(own, foreign, r);
    var c' := DeleteFirst(c, r);
    assert c' == DeleteFirst(own, r) + foreign;
    assert c'[|c'| - |foreign|..] == foreign;
    assert c'[..|c'| - |foreign|] == DeleteFirst(own, r);
    MineDelete(c, r, ip);
    DeleteFromSuffix(ip, net, level, i);
    forall other: IPv4 | other != ip
      ensures Mine(c', other) == Mine(c, other)
    {
      MineDelete(c, r, other);
    }
  }

  // ---- First-match evaluation ----

  /** What the chain decides: back to the calling chain, dropped, or settled by a foreign rule. */
  datatype Verdict = Returned | Dropped | ByForeign(id: int)

  /** `other(id, p)` says whether foreign rule `id` settles packet `p`. */
  function Eval(c: Chain, other: (int, Packet) -> bool, p: Packet): Verdict {
    if c == [] then Returned
    else match c[0]
      case Egress(src, cond, target) =>
        if src == p.src && Holds(cond, p) then
          (if target == Return then Returned else Dropped)
        else Eval(c[1..], other, p)
      case Foreign(id) =>
        if other(id, p) then ByForeign(id) else Eval(c[1..], other, p)
  }

  /** The policy the rules are there to enforce for a packet leaving the agent. */
  predicate Permitted(net: Subnet24, p: Packet) {
    || net.Contains(p.dst)
    || p.established
    || (p.dport == 53 && (p.proto == Udp || p.proto == Tcp))
  }

  /** Rules keyed on other sources never decide a packet. */
  lemma {:induction false} EvalOwn(own: Chain, foreign: Chain, other: (int, Packet) -> bool, p: Packet)
    requires AllEgress(own)
    ensures Eval(own + foreign, other, p) == Eval(Mine(own, p.src) + foreign, other, p)
  {
    if own == [] {
      assert own + foreign == foreign;
      assert Mine(own, p.src) + foreign == foreign;
    } else {
      assert (own + foreign)[1..] == own[1..] + foreign;
      EvalOwn(own[1..], foreign, other, p);
      var m := Mine(own[1..], p.src);
      if own[0].src == p.src {
        assert Mine(own, p.src) + foreign == [own[0]] + (m + foreign);
        assert ([own[0]] + (m + foreign))[1..] == m + foreign;
      }
    }
  }

  lemma {:induction false} EvalSuffix(ip: IPv4, net: Subnet24, level: nat, foreign: Chain,
                                      other: (int, Packet) -> bool, p: Packet)
    requires level < SPECS && p.src == ip
    ensures var v := Eval(EgressRuleSpecs(ip, net)[level..] + foreign, other, p);
            && (!Permitted(net, p) ==> v == Dropped)
            && (Permitted(net, p) ==> v == Returned || (level > 0 && v == Dropped))
    decreases SPECS - level
  {
    var s := EgressRuleSpecs(ip, net);
    var c := s[level..] + foreign;
    assert c[0] == s[level];
    if level < SPECS - 1 {
      assert c[1..] == s[level + 1..] + foreign;
      EvalSuffix(ip, net, level + 1, foreign, other, p);
      if level == 0 && Permitted(net, p) && !net.Contains(p.dst) && !p.established {
        EvalDns(ip, net, foreign, other, p);
      }
    }
  }

  /** One rule of the list: it decides the packet or leaves it to the next. */
  lemma EvalRule(ip: IPv4, net: Subnet24, k: nat, foreign: Chain, other: (int, Packet) -> bool, p: Packet)
    requires k < SPECS && p.src == ip
    ensures var s := EgressRuleSpecs(ip, net);
            Eval(s[k..] + foreign, other, p)
            == if Holds(s[k].cond, p) then (if k < SPECS - 1 then Returned else Dropped)
               else Eval(s[k + 1..] + foreign, other, p)
  {
    var s := EgressRuleSpecs(ip, net);
    var c := s[k..] + foreign;
    assert c[0] == s[k] && c[1..] == s[k + 1..] + foreign;
  }

  /** A DNS packet reaches its RETURN when the first two specs do not match it. */
  lemma EvalDns(ip: IPv4, net: Subnet24, foreign: Chain, other: (int, Packet) -> bool, p: Packet)
    requires p.src == ip && !net.Contains(p.dst) && !p.established
    requires p.dport == 53 && (p.proto == Udp || p.proto == Tcp)
    ensures Eval(EgressRuleSpecs(ip, net)[0..] + foreign, other, p) == Returned
    ensures Eval(EgressRuleSpecs(ip, net)[1..] + foreign, other, p) == Returned
  {
    EvalRule(ip, net, 3, foreign, other, p);
    EvalRule(ip, net, 2, foreign, other, p);
    EvalRule(ip, net, 1, foreign, other, p);
    EvalRule(ip, net, 0, foreign, other, p);
  }

  /** After the first n commands of the insertion program, whatever level it found. */
  lemma {:induction false} AddPrefix(c: Chain, foreign: Chain, ip: IPv4, net: Subnet24, level: nat, n: nat)
    requires Layered(c, foreign) && AtLevel(c, ip, net, level) && n <= SPECS
    ensures var c' := ExecAll(AddProgram(ip, net)[..n], c);
            && Layered(c', foreign)
            && AtLevel(c', ip, net, if level <= SPECS - n then level else SPECS - n)
            && forall other: IPv4 :: other != ip ==> Mine(c', other) == Mine(c, other)
  {
    if n > 0 {
      AddPrefix(c, foreign, ip, net, level, n - 1);
      var prog := AddProgram(ip, net);
      var mid := ExecAll(prog[..n - 1], c);
      assert prog[..n] == prog[..n - 1] + [prog[n - 1]];
      ExecAllSnoc(prog[..n - 1], prog[n - 1], c);
      EnsureStep(mid, foreign, ip, net, SPECS - n, if level <= SPECS - n + 1 then level else SPECS - n + 1);
    }
  }

  /** After the first n commands of the removal program, whatever level it found. */
  lemma {:induction false} RemovePrefix(c: Chain, foreign: Chain, ip: IPv4, net: Subnet24, level: nat, n: nat)
    requires Layered(c, foreign) && AllForeign(foreign) && AtLevel(c, ip, net, level) && n <= SPECS
    ensures var c' := ExecAll(RemoveProgram(ip, net)[..n], c);
            && Layered(c', foreign)
            && AtLevel(c', ip, net, if level >= n then level else n)
            && forall other: IPv4 :: other != ip ==> Mine(c', other) == Mine(c, other)
  {
    if n > 0 {
      RemovePrefix(c, foreign, ip, net, level, n - 1);
      var prog := RemoveProgram(ip, net);
      var mid := ExecAll(prog[..n - 1], c);
      assert prog[..n] == prog[..n - 1] + [prog[n - 1]];
      ExecAllSnoc(prog[..n - 1], prog[n - 1], c);
      DeleteStep(mid, foreign, ip, net, n - 1, if level >= n - 1 then level else n - 1);
    }
  }

  lemma {:induction false} ExecAllSnoc(cmds: seq<Cmd>, cmd: Cmd, c: Chain)
    ensures ExecAll(cmds + [cmd], c) == Exec(cmd, ExecAll(cmds, c))
  {
    if cmds == [] {
      assert ExecAll([cmd], c) == ExecAll([cmd][1..], Exec(cmd, c));
    } else {
      assert (cmds + [cmd])[1..] == cmds[1..] + [cmd];
      ExecAllSnoc(cmds[1..], cmd, Exec(cmds[0], c));
    }
  }

  /** The check succeeds exactly when nothing is missing. */
  lemma CheckIsExact(c: Chain, ip: IPv4, net: Subnet24, level: nat)
    requires AtLevel(c, ip, net, level)
    ensures (forall k :: 0 <= k < SPECS ==> EgressRuleSpecs(ip, net)[k] in c) <==> level == 0
  {
    var s := EgressRuleSpecs(ip, net);
    forall k | 0 <= k < SPECS
      ensures s[k] in c <==> level <= k
    {
      MineMember(c, s[k]);
      if level <= k {
        assert s[level..][k - level] == s[k];
      }
    }
    if level > 0 {
      assert s[0] !in c;
    }
  }

  /** The kernel's DOCKER-USER chain behind a provider's command callback. */
  class DockerUser {
    var chain: Chain

    constructor (c: Chain)
      ensures chain == c
    {
      chain := c;
    }

    method Run(cmds: seq<Cmd>)
      modifies this
      ensures chain == ExecAll(cmds, old(chain))
    {
      for i := 0 to |cmds|
        invariant ExecAll(cmds[i..], chain) == ExecAll(cmds, old(chain))
      {
        assert cmds[i..][0] == cmds[i] && cmds[i..][1..] == cmds[i + 1..];
        chain := Exec(cmds[i], chain);
      }
    }

    /** Restores the complete, ordered rule list of `ip` from any suffix of it. */
    method AddRules(ip: IPArg, net: NetArg, ghost foreign: Chain) returns (ok: bool)
      modifies this
      ensures ok <==> ip.Addr? && net.Net?
      ensures !ok ==> chain == old(chain)
      ensures ok && Layered(old(chain), foreign) &&
              (exists level :: AtLevel(old(chain), ip.ip, net.net, level)) ==>
                && Layered(chain, foreign)
                && Mine(chain, ip.ip) == EgressRuleSpecs(ip.ip, net.net)
                && forall other: IPv4 :: other != ip.ip ==> Mine(chain, other) == Mine(old(chain), other)
    {
      var r := AddRulesCmd(ip, net);
      ok := r.Commands?;
      if ok {
        ghost var before := chain;
        Run(r.cmds);
        assert r.cmds[..SPECS] == r.cmds;
        if level :| Layered(before, foreign) && AtLevel(before, ip.ip, net.net, level) {
          AddPrefix(before, foreign, ip.ip, net.net, level, SPECS);
        }
      }
    }

    /** Best effort: malformed arguments and an empty address change nothing. */
    method RemoveRules(ip: IPArg, net: NetArg, ghost foreign: Chain)
      modifies this
      ensures !(ip.Addr? && net.Net?) ==> chain == old(chain)
      ensures ip.Addr? && net.Net? && Layered(old(chain), foreign) && AllForeign(foreign) &&
              (exists level :: AtLevel(old(chain), ip.ip, net.net, level)) ==>
                && Layered(chain, foreign)
                && Mine(chain, ip.ip) == []
                && forall other: IPv4 :: other != ip.ip ==> Mine(chain, other) == Mine(old(chain), other)
    {
      var r := RemoveRulesCmd(ip, net);
      if !r.Commands? || r.cmds == [] {
        return;
      }
      ghost var before := chain;
      Run(r.cmds);
      assert r.cmds[..SPECS] == r.cmds;
      if level :| Layered(before, foreign) && AllForeign(foreign) && AtLevel(before, ip.ip, net.net, level) {
        RemovePrefix(before, foreign, ip.ip, net.net, level, SPECS);
      }
    }

    /** `C0 && C1 && ...`, stopping at the first rule that is absent. */
    method CheckRules(ip: IPArg, net: NetArg) returns (all: bool)
      ensures !(ip.Addr? && net.Net?) ==> !all
      ensures ip.Addr? && net.Net? ==>
                (all <==> forall k :: 0 <= k < SPECS ==> EgressRuleSpecs(ip.ip, net.net)[k] in chain)
    {
      if !ip.Addr? || !net.Net? {
        return false;
      }
      var specs := EgressRuleSpecs(ip.ip, net.net);
      for i := 0 to |specs|
        invariant forall k :: 0 <= k < i ==> specs[k] in chain
      {
        if specs[i] !in chain {
          return false;
        }
      }
      all := true;
    }
  }
}
