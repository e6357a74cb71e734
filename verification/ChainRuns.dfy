/** Runs of many rule editors over one chain: each agent's Add and Remove programs are
    interleaved command by command, and may be abandoned between any two commands. */
module ChainRuns {
  import opened Network
  import opened Iptables

  /** The program an agent's address is in the middle of, and how many commands it has issued. */
  datatype Job = Idle | Adding(issued: nat) | Removing(issued: nat)

  datatype System = System(chain: Chain, jobs: map<IPv4, Job>) {
    function JobOf(ip: IPv4): Job {
      if ip in jobs then jobs[ip] else Idle
    }
  }

  /** Starting a program abandons whatever that address was running. */
  datatype Action = StartAdd(ip: IPv4) | StartRemove(ip: IPv4) | Advance(ip: IPv4)

  function Step(s: System, nets: IPv4 -> Subnet24, a: Action): System {
    match a
    case StartAdd(ip) => s.(jobs := s.jobs[ip := Adding(0)])
    case StartRemove(ip) => s.(jobs := s.jobs[ip := Removing(0)])
    case Advance(ip) =>
      match s.JobOf(ip)
      case Idle => s
      case Adding(n) =>
        if n < SPECS then
          System(Exec(AddProgram(ip, nets(ip))[n], s.chain), s.jobs[ip := Adding(n + 1)])
        else s
      case Removing(n) =>
        if n < SPECS then
          System(Exec(RemoveProgram(ip, nets(ip))[n], s.chain), s.jobs[ip := Removing(n + 1)])
        else s
  }

  function Run(s: System, nets: IPv4 -> Subnet24, actions: seq<Action>): System {
    if actions == [] then s
    else Step(Run(s, nets, actions[..|actions| - 1]), nets, actions[|actions| - 1])
  }

  function Start(foreign: Chain): System {
    System(foreign, map[])
  }

  /** How many of the specs of `ip` are missing from the chain. */
  ghost function Level(c: Chain, ip: IPv4): int {
    SPECS - |Mine(c, ip)|
  }

  /** One address: its rules are the tail of the spec list from some level on, and the level
      agrees with what its program has done so far. */
  ghost predicate OwnOk(s: System, nets: IPv4 -> Subnet24, ip: IPv4) {
    var level := Level(s.chain, ip);
    && 0 <= level
    && AtLevel(s.chain, ip, nets(ip), level)
    && match s.JobOf(ip)
       case Idle => level == SPECS
       case Adding(n) => n <= SPECS && level <= SPECS - n
       case Removing(n) => n <= SPECS && level >= n
  }

  ghost predicate Inv(s: System, nets: IPv4 -> Subnet24, foreign: Chain) {
    && Layered(s.chain, foreign)
    && forall ip: IPv4 :: OwnOk(s, nets, ip)
  }

  lemma StartInv(nets: IPv4 -> Subnet24, foreign: Chain)
    requires AllForeign(foreign)
    ensures Inv(Start(foreign), nets, foreign)
  {
    forall ip: IPv4
      ensures OwnOk(Start(foreign), nets, ip)
    {
      MineForeign(foreign, ip);
    }
  }

  lemma LevelIs(c: Chain, ip: IPv4, net: Subnet24, level: nat)
    requires AtLevel(c, ip, net, level)
    ensures Level(c, ip) == level
  {
  }

  lemma AddAdvance(s: System, nets: IPv4 -> Subnet24, foreign: Chain, ip: IPv4, n: nat)
    requires Layered(s.chain, foreign) && OwnOk(s, nets, ip)
    requires s.JobOf(ip) == Adding(n) && n < SPECS
    ensures var s' := Step(s, nets, Advance(ip));
            && Layered(s'.chain, foreign) && OwnOk(s', nets, ip)
            && forall other: IPv4 :: other != ip ==> Mine(s'.chain, other) == Mine(s.chain, other)
  {
    var level := Level(s.chain, ip);
    var i := SPECS - 1 - n;
    var c' := Step(s, nets, Advance(ip)).chain;
    assert c' == Exec(EnsureRule(EgressRuleSpecs(ip, nets(ip))[i]), s.chain);
    EnsureStep(s.chain, foreign, ip, nets(ip), i, level);
    LevelIs(c', ip, nets(ip), if level <= i then level else i);
  }

  lemma RemoveAdvance(s: System, nets: IPv4 -> Subnet24, foreign: Chain, ip: IPv4, n: nat)
    requires AllForeign(foreign) && Layered(s.chain, foreign) && OwnOk(s, nets, ip)
    requires s.JobOf(ip) == Removing(n) && n < SPECS
    ensures var s' := Step(s, nets, Advance(ip));
            && Layered(s'.chain, foreign) && OwnOk(s', nets, ip)
            && Level(s'.chain, ip) == (if Level(s.chain, ip) == n then n + 1 else Level(s.chain, ip))
            && forall other: IPv4 :: other != ip ==> Mine(s'.chain, other) == Mine(s.chain, other)
  {
    var level := Level(s.chain, ip);
    var c' := Step(s, nets, Advance(ip)).chain;
    assert c' == Exec(DeleteRule(EgressRuleSpecs(ip, nets(ip))[n]), s.chain);
    DeleteStep(s.chain, foreign, ip, nets(ip), n, level);
    LevelIs(c', ip, nets(ip), if level == n then n + 1 else level);
  }

  /** One command of the program of `ip`: its own level moves as the program says, no other
      address notices, and a Remove takes the DROP away only with its last command. */
  lemma AdvanceInv(s: System, nets: IPv4 -> Subnet24, foreign: Chain, ip: IPv4)
    requires AllForeign(foreign) && Layered(s.chain, foreign) && OwnOk(s, nets, ip)
    ensures var s' := Step(s, nets, Advance(ip));
            && Layered(s'.chain, foreign) && OwnOk(s', nets, ip)
            && forall other: IPv4 :: other != ip ==> Mine(s'.chain, other) == Mine(s.chain, other)
    ensures s.JobOf(ip).Removing? && s.JobOf(ip).issued < SPECS - 1 && Level(s.chain, ip) < SPECS ==>
              Level(Step(s, nets, Advance(ip)).chain, ip) < SPECS
  {
    match s.JobOf(ip)
    case Idle =>
    case Adding(n) =>
      if n < SPECS {
        AddAdvance(s, nets, foreign, ip, n);
      }
    case Removing(n) =>
      if n < SPECS {
        RemoveAdvance(s, nets, foreign, ip, n);
      }
  }

  lemma StepInv(s: System, nets: IPv4 -> Subnet24, foreign: Chain, a: Action)
    requires AllForeign(foreign) && Inv(s, nets, foreign)
    ensures Inv(Step(s, nets, a), nets, foreign)
  {
    var s' := Step(s, nets, a);
    assert OwnOk(s, nets, a.ip);
    if a.Advance? {
      AdvanceInv(s, nets, foreign, a.ip);
    }
    forall ip: IPv4
      ensures OwnOk(s', nets, ip)
    {
      assert OwnOk(s, nets, ip);
      if ip != a.ip {
        StepElsewhere(s, nets, a, ip);
      }
    }
  }

  lemma StepElsewhere(s: System, nets: IPv4 -> Subnet24, a: Action, ip: IPv4)
    requires ip != a.ip && OwnOk(s, nets, ip)
    requires Mine(Step(s, nets, a).chain, ip) == Mine(s.chain, ip)
    ensures OwnOk(Step(s, nets, a), nets, ip)
  {
    assert Step(s, nets, a).JobOf(ip) == s.JobOf(ip);
  }

  /** Chain refinement, for every interleaving and every interruption. */
  lemma {:induction false} ReachableInv(nets: IPv4 -> Subnet24, foreign: Chain, actions: seq<Action>)
    requires AllForeign(foreign)
    ensures Inv(Run(Start(foreign), nets, actions), nets, foreign)
  {
    if actions == [] {
      StartInv(nets, foreign);
    } else {
      ReachableInv(nets, foreign, actions[..|actions| - 1]);
      StepInv(Run(Start(foreign), nets, actions[..|actions| - 1]), nets, foreign, actions[|actions| - 1]);
    }
  }

  /** A completed Add has the whole list in place, a completed Remove has nothing left, and
      what the check command answers is exactly whether the list is whole. */
  lemma CompletedPrograms(nets: IPv4 -> Subnet24, foreign: Chain, actions: seq<Action>, ip: IPv4)
    requires AllForeign(foreign)
    ensures var s := Run(Start(foreign), nets, actions);
            && (s.JobOf(ip) == Adding(SPECS) ==> Mine(s.chain, ip) == EgressRuleSpecs(ip, nets(ip)))
            && (s.JobOf(ip) == Removing(SPECS) ==> Mine(s.chain, ip) == [])
            && ((forall k :: 0 <= k < SPECS ==> EgressRuleSpecs(ip, nets(ip))[k] in s.chain)
                <==> Mine(s.chain, ip) == EgressRuleSpecs(ip, nets(ip)))
  {
    var s := Run(Start(foreign), nets, actions);
    ReachableInv(nets, foreign, actions);
    assert OwnOk(s, nets, ip);
    CheckIsExact(s.chain, ip, nets(ip), Level(s.chain, ip));
    assert |EgressRuleSpecs(ip, nets(ip))| == SPECS;
  }

  /** What the reachable chain does with a packet leaving an agent. With the whole list in
      place it is exactly the egress policy; with at least the DROP in place nothing that the
      policy forbids gets through; with nothing in place the foreign rules decide alone. */
  lemma ReachableVerdict(nets: IPv4 -> Subnet24, foreign: Chain, actions: seq<Action>,
                         other: (int, Packet) -> bool, p: Packet)
    requires AllForeign(foreign)
    ensures var s := Run(Start(foreign), nets, actions);
            var v := Eval(s.chain, other, p);
            && (Level(s.chain, p.src) == 0 ==> v == if Permitted(nets(p.src), p) then Returned else Dropped)
            && (Level(s.chain, p.src) < SPECS && !Permitted(nets(p.src), p) ==> v == Dropped)
            && (Level(s.chain, p.src) < SPECS ==> !v.ByForeign?)
            && (Level(s.chain, p.src) == SPECS ==> v == Eval(foreign, other, p))
  {
    var s := Run(Start(foreign), nets, actions);
    ReachableInv(nets, foreign, actions);
    var ip := p.src;
    assert OwnOk(s, nets, ip);
    var level := Level(s.chain, ip);
    var own := s.chain[..|s.chain| - |foreign|];
    assert s.chain == own + foreign;
    EvalOwn(own, foreign, other, p);
    MineConcat(own, foreign, ip);
    MineForeign(foreign, ip);
    assert Mine(own, ip) == Mine(s.chain, ip);
    if level < SPECS {
      EvalSuffix(ip, nets(ip), level, foreign, other, p);
    } else {
      assert [] + foreign == foreign;
    }
  }

  /** An Add closes the agent's egress with its very first command. */
  lemma FailClosedWhileEditing(nets: IPv4 -> Subnet24, foreign: Chain, actions: seq<Action>,
                               other: (int, Packet) -> bool, p: Packet)
    requires AllForeign(foreign)
    requires !Permitted(nets(p.src), p)
    requires var j := Run(Start(foreign), nets, actions).JobOf(p.src); j.Adding? && j.issued >= 1
    ensures Eval(Run(Start(foreign), nets, actions).chain, other, p) == Dropped
  {
    ReachableInv(nets, foreign, actions);
    assert OwnOk(Run(Start(foreign), nets, actions), nets, p.src);
    ReachableVerdict(nets, foreign, actions, other, p);
  }

  // ---- Programs get done ----

  lemma {:induction false} RunConcat(s: System, nets: IPv4 -> Subnet24, a: seq<Action>, b: seq<Action>)
    ensures Run(s, nets, a + b) == Run(Run(s, nets, a), nets, b)
  {
    if b == [] {
      assert a + b == a;
    } else {
      assert (a + b)[..|a + b| - 1] == a + b[..|b| - 1];
      RunConcat(s, nets, a, b[..|b| - 1]);
    }
  }

  predicate Starts(a: Action, ip: IPv4) {
    (a.StartAdd? || a.StartRemove?) && a.ip == ip
  }

  function Advances(actions: seq<Action>, ip: IPv4): nat {
    if actions == [] then 0
    else Advances(actions[..|actions| - 1], ip) + if actions[|actions| - 1] == Advance(ip) then 1 else 0
  }

  function AtMost(n: nat, limit: nat): nat {
    if n < limit then n else limit
  }

  /** Each turn of an address issues one command of its program, until the program is through;
      the turns of others make no difference. */
  lemma {:induction false} JobProgress(s: System, nets: IPv4 -> Subnet24, actions: seq<Action>, ip: IPv4)
    requires forall i :: 0 <= i < |actions| ==> !Starts(actions[i], ip)
    ensures s.JobOf(ip) == Adding(0) ==> Run(s, nets, actions).JobOf(ip) == Adding(AtMost(Advances(actions, ip), SPECS))
    ensures s.JobOf(ip) == Removing(0) ==> Run(s, nets, actions).JobOf(ip) == Removing(AtMost(Advances(actions, ip), SPECS))
  {
    if actions != [] {
      var init, last := actions[..|actions| - 1], actions[|actions| - 1];
      JobProgress(s, nets, init, ip);
      assert !Starts(last, ip);
      if last.ip != ip {
        assert Run(s, nets, actions).JobOf(ip) == Run(s, nets, init).JobOf(ip);
      }
    }
  }

  /** Where an Add stands, from the actions alone: begun anywhere in a run, with nothing else begun
      for its address since, and given n turns among everybody else's. */
  lemma AddIsAt(nets: IPv4 -> Subnet24, foreign: Chain, before: seq<Action>, rest: seq<Action>, ip: IPv4)
    requires AllForeign(foreign) && forall i :: 0 <= i < |rest| ==> !Starts(rest[i], ip)
    ensures var s := Run(Start(foreign), nets, before + [StartAdd(ip)] + rest);
            && s.JobOf(ip) == Adding(AtMost(Advances(rest, ip), SPECS))
            && Level(s.chain, ip) <= SPECS - AtMost(Advances(rest, ip), SPECS)
            && (Advances(rest, ip) >= SPECS ==> Mine(s.chain, ip) == EgressRuleSpecs(ip, nets(ip)))
  {
    var started := before + [StartAdd(ip)];
    assert started[..|started| - 1] == before;
    RunConcat(Start(foreign), nets, started, rest);
    JobProgress(Run(Start(foreign), nets, started), nets, rest, ip);
    ReachableInv(nets, foreign, started + rest);
    assert OwnOk(Run(Start(foreign), nets, started + rest), nets, ip);
    CompletedPrograms(nets, foreign, started + rest, ip);
  }

  /** The same for a Remove: after all its turns no rule of the address is left. */
  lemma RemoveIsAt(nets: IPv4 -> Subnet24, foreign: Chain, before: seq<Action>, rest: seq<Action>, ip: IPv4)
    requires AllForeign(foreign) && forall i :: 0 <= i < |rest| ==> !Starts(rest[i], ip)
    ensures var s := Run(Start(foreign), nets, before + [StartRemove(ip)] + rest);
            && s.JobOf(ip) == Removing(AtMost(Advances(rest, ip), SPECS))
            && Level(s.chain, ip) >= AtMost(Advances(rest, ip), SPECS)
            && (Advances(rest, ip) >= SPECS ==> Mine(s.chain, ip) == [])
  {
    var started := before + [StartRemove(ip)];
    assert started[..|started| - 1] == before;
    RunConcat(Start(foreign), nets, started, rest);
    JobProgress(Run(Start(foreign), nets, started), nets, rest, ip);
    ReachableInv(nets, foreign, started + rest);
    assert OwnOk(Run(Start(foreign), nets, started + rest), nets, ip);
    CompletedPrograms(nets, foreign, started + rest, ip);
  }
}
