/** Moving one agent's Docker network to its planned subnet: prepare, then commit
    (pkg/provider/managedhost/network_reconcile.go), against a host on which any command
    can be lost, answered but not heard, or swallowed by the daemon. */
module Reconcile {
  import opened Optional
  import opened Network
  import opened Iptables

  // ---- The host ----

  /** What the migration can see or change. `network` is the CIDR text of the agent's network,
      `attached` the containers on it, `agentIP` the address of the agent's container. */
  datatype HostState = HostState(
    network: Option<string>,
    attached: set<string>,
    agentUp: bool,
    agentIP: Option<IPv4>,
    proxyUp: bool,
    unitActive: bool,
    rules: Chain)

  /** The two containers a migration takes down itself, and the endpoints no disconnect clears. */
  datatype Names = Names(agent: string, proxy: string, ghosts: set<string>) {
    predicate Foreign(c: string) { c != agent && c != proxy }
  }

  function ContainerName(name: string): string { "conga-" + name }

  function ProxyName(name: string): string { "conga-egress-" + name }

  datatype HostCmd =
    | InspectSubnet
    | ListEndpoints
    | Disconnect(endpoint: string)
    | FlushOldRules
    | StopUnit
    | RemoveAgent
    | RemoveProxy
    | RemoveNetwork
    | CreateNetwork(cidr: string)
  {
    /** Everything but the two network changes ends in `|| true`. */
    predicate Tolerant() { !RemoveNetwork? && !CreateNetwork? }
  }

  /** Undelivered: the command never ran. ReplyLost: it ran, the transport failed afterwards.
      DaemonError: it ran and Docker refused; `|| true` turns that into an empty success. */
  datatype Fault = Healthy | Undelivered | ReplyLost | DaemonError

  /** What happens at one tick: containers that attach themselves, a unit that restarts its
      container, and what becomes of the command. */
  datatype Event = Event(fault: Fault, arrivals: set<string>, restart: bool)

  const QUIET := Event(Healthy, {}, false)

  datatype Reply = Reply(cidr: string, names: set<string>, failed: bool)

  /** One command of a run: its reply, the host as the command left it, and when it was sent. */
  datatype Entry = Entry(cmd: HostCmd, reply: Reply, state: HostState, tick: nat)

  function Arrive(h: HostState, n: Names, e: Event): HostState {
    if h.network.None? then h
    else
      var h1 := h.(attached := h.attached + (set c | c in e.arrivals && n.Foreign(c)));
      if e.restart && h.unitActive then h1.(agentUp := true, attached := h1.attached + {n.agent}) else h1
  }

  /** Rules the flush removes: those keyed on the address of the agent's container. */
  function Flushed(rules: Chain, ip: IPv4): Chain {
    if rules == [] then []
    else if rules[0].Egress? && rules[0].src == ip then Flushed(rules[1..], ip)
    else [rules[0]] + Flushed(rules[1..], ip)
  }

  /** A flush takes away every rule of its address and no rule of another, and leaves what
      somebody else put into the chain below. */
  lemma {:induction false} FlushIsOwn(c: Chain, ip: IPv4, other: IPv4)
    ensures Mine(Flushed(c, ip), other) == if other == ip then [] else Mine(c, other)
  {
    if c != [] {
      FlushIsOwn(c[1..], ip, other);
    }
  }

  lemma FlushKeepsLayers(c: Chain, foreign: Chain, ip: IPv4)
    requires Layered(c, foreign) && AllForeign(foreign)
    ensures Layered(Flushed(c, ip), foreign)
  {
    var own := c[..|c| - |foreign|];
    assert c == own + foreign;
    FlushOnTop(own, foreign, ip);
    var f := Flushed(c, ip);
    assert f[|f| - |foreign|..] == foreign;
    assert f[..|f| - |foreign|] == Flushed(own, ip);
  }

  lemma {:induction false} FlushOnTop(own: Chain, foreign: Chain, ip: IPv4)
    requires AllEgress(own) && AllForeign(foreign)
    ensures Flushed(own + foreign, ip) == Flushed(own, ip) + foreign && AllEgress(Flushed(own, ip))
  {
    if own == [] {
      assert own + foreign == foreign;
      FlushForeign(foreign, ip);
    } else {
      assert (own + foreign)[1..] == own[1..] + foreign;
      FlushOnTop(own[1..], foreign, ip);
    }
  }

  lemma {:induction false} FlushForeign(foreign: Chain, ip: IPv4)
    requires AllForeign(foreign)
    ensures Flushed(foreign, ip) == foreign
  {
    if foreign != [] {
      FlushForeign(foreign[1..], ip);
      assert foreign == [foreign[0]] + foreign[1..];
    }
  }

  /** The command took effect, whether or not its answer came back. */
  predicate Delivered(f: Fault) {
    f == Healthy || f == ReplyLost
  }

  /** The chain is as it was, or without the rules of the agent's address. */
  predicate OnlyFlushed(was: HostState, now: HostState) {
    && now.agentIP == was.agentIP
    && (now.rules == was.rules || (was.agentIP.Some? && now.rules == Flushed(was.rules, was.agentIP.value)))
  }

  /** Then no other agent's rules have changed, and the layers are intact. */
  lemma OthersKeepTheirRules(was: HostState, now: HostState, foreign: Chain, other: IPv4)
    requires OnlyFlushed(was, now) && Some(other) != was.agentIP
    ensures Mine(now.rules, other) == Mine(was.rules, other)
    ensures Layered(was.rules, foreign) && AllForeign(foreign) ==> Layered(now.rules, foreign)
  {
    if now.rules != was.rules {
      FlushIsOwn(was.rules, was.agentIP.value, other);
      if Layered(was.rules, foreign) && AllForeign(foreign) {
        FlushKeepsLayers(was.rules, foreign, was.agentIP.value);
      }
    }
  }

  function FlushedRules(h: HostState): Chain {
    if h.agentUp && h.agentIP.Some? then Flushed(h.rules, h.agentIP.value) else h.rules
  }

  function Perform(h: HostState, n: Names, cmd: HostCmd): (HostState, Reply) {
    var done := Reply("", {}, false);
    var refused := Reply("", {}, true);
    match cmd
    case InspectSubnet => (h, Reply(if h.network.Some? then h.network.value else "", {}, false))
    case ListEndpoints => (h, Reply("", h.attached, false))
    case Disconnect(c) => (if c in n.ghosts then h else h.(attached := h.attached - {c}), done)
    case FlushOldRules => (h.(rules := FlushedRules(h)), done)
    case StopUnit => (h.(unitActive := false), done)
    case RemoveAgent => (h.(agentUp := false, attached := h.attached - ({n.agent} - n.ghosts)), done)
    case RemoveProxy => (h.(proxyUp := false, attached := h.attached - ({n.proxy} - n.ghosts)), done)
    case RemoveNetwork =>
      if h.network.Some? && h.attached == {} then (h.(network := None), done) else (h, refused)
    case CreateNetwork(cidr) =>
      if h.network.None? then (h.(network := Some(cidr)), done) else (h, refused)
  }

  function Deliver(h: HostState, n: Names, e: Event, cmd: HostCmd): (HostState, Reply) {
    var h1 := Arrive(h, n, e);
    match e.fault
    case Healthy => Perform(h1, n, cmd)
    case Undelivered => (h1, Reply("", {}, true))
    case ReplyLost => (Perform(h1, n, cmd).0, Reply("", {}, true))
    case DaemonError => (h1, Reply("", {}, !cmd.Tolerant()))
  }

  class Host {
    const names: Names
    const script: nat -> Event
    var h: HostState
    var clock: nat
    ghost var log: seq<Entry>

    constructor (n: Names, script: nat -> Event, h: HostState)
      ensures this.names == n && this.script == script && this.h == h && clock == 0 && log == []
    {
      this.names, this.script, this.h, this.clock, this.log := n, script, h, 0, [];
    }

    method RunCommand(cmd: HostCmd) returns (r: Reply)
      modifies this
      ensures (h, r) == Deliver(old(h), names, script(old(clock)), cmd)
      ensures clock == old(clock) + 1
      ensures log == old(log) + [Entry(cmd, r, h, old(clock))]
      ensures cmd.Tolerant() ==> h.network == old(h).network
      ensures RulesFlushed(old(h), h, cmd.FlushOldRules? && FlushGetsThrough(names, script, old(clock), old(h)))
    {
      var res := Deliver(h, names, script(clock), cmd);
      h, r := res.0, res.1;
      log := log + [Entry(cmd, r, h, clock)];
      clock := clock + 1;
    }
  }

  // ---- What a run may do before it commits ----

  /** Nothing of the agent, its proxy, its rules or its subnet has been taken away, and no
      ghost endpoint has gone. Only foreign endpoints may have come or gone, and a unit that
      was active may have brought its own container back. */
  ghost predicate Untouched(n: Names, a: HostState, b: HostState) {
    && b.network == a.network
    && b.rules == a.rules
    && b.proxyUp == a.proxyUp
    && b.unitActive == a.unitActive
    && b.agentIP == a.agentIP
    && (a.agentUp ==> b.agentUp)
    && (b.agentUp && !a.agentUp ==> a.unitActive)
    && (forall c :: c in a.attached && (!n.Foreign(c) || c in n.ghosts) ==> c in b.attached)
    && (n.proxy in b.attached && n.proxy != n.agent ==> n.proxy in a.attached)
  }

  predicate IsPreparation(c: HostCmd) {
    c.InspectSubnet? || c.ListEndpoints? || c.Disconnect?
  }

  /** A preparation command cannot harm the agent, whatever happens to it. */
  lemma PreparationIsHarmless(n: Names, a: HostState, b: HostState, e: Event, cmd: HostCmd)
    requires Untouched(n, a, b)
    requires IsPreparation(cmd) && (cmd.Disconnect? ==> n.Foreign(cmd.endpoint))
    ensures Untouched(n, a, Deliver(b, n, e, cmd).0)
  {
    var b1 := Arrive(b, n, e);
    assert Untouched(n, a, b1);
  }

  ghost predicate QuietFrom(script: nat -> Event, t: nat) {
    forall k: nat :: k >= t ==> script(k) == QUIET
  }

  ghost predicate BothBlind(script: nat -> Event, t: nat) {
    script(t) == Event(DaemonError, {}, false) && script(t + 1) == Event(DaemonError, {}, false)
  }

  /** Docker refuses both listings and nothing else goes wrong. */
  ghost predicate BlindListings(script: nat -> Event, t: nat) {
    script(t) == QUIET && BothBlind(script, t + 1) && QuietFrom(script, t + 3)
  }

  lemma UntouchedTransitive(n: Names, a: HostState, b: HostState, c: HostState)
    requires Untouched(n, a, b) && Untouched(n, b, c)
    ensures Untouched(n, a, c)
  {
  }

  // ---- The migration ----

  datatype Error =
    | InspectFailed
    | CreateFailed
    | ListFailed
    | RelistFailed
    | Unclearable(endpoint: string)
    | NetworkRemoveFailed

  datatype Outcome = Outcome(migrated: bool, err: Option<Error>)

  function Foreigners(n: Names, attached: set<string>): set<string> {
    set c | c in attached && n.Foreign(c)
  }

  /** The commands of a commit, in order; the network is recreated only after it was removed. */
  ghost predicate CommitCommands(cidr: string, log: seq<Entry>) {
    && |log| >= 5
    && log[0].cmd == FlushOldRules
    && log[1].cmd == StopUnit
    && log[2].cmd == RemoveAgent
    && log[3].cmd == RemoveProxy
    && log[4].cmd == RemoveNetwork
    && (if log[4].reply.failed then |log| == 5
        else |log| == 6 && log[5].cmd == CreateNetwork(cidr))
  }

  /** The command's answer came back; a swallowed refusal comes back as an empty success. */
  predicate Heard(f: Fault) {
    f == Healthy || f == DaemonError
  }

  /** Entry k lists the endpoints, and not for the first time since entry `from`. */
  ghost predicate Relists(from: nat, log: seq<Entry>, k: nat) {
    && from <= k < |log| && log[k].cmd == ListEndpoints
    && exists j :: from <= j < k && log[j].cmd == ListEndpoints
  }

  /** Entry k is a second listing that comes back and shows no foreign endpoint: because none is
      attached, or because Docker's refusal was swallowed. */
  ghost predicate AdmitsAt(n: Names, script: nat -> Event, from: nat, log: seq<Entry>, k: nat) {
    && Relists(from, log, k)
    && var f := script(log[k].tick).fault;
       Heard(f) && (f == DaemonError || Foreigners(n, log[k].state.attached) == {})
  }

  ghost predicate Admits(n: Names, script: nat -> Event, from: nat, log: seq<Entry>) {
    exists k: nat :: AdmitsAt(n, script, from, log, k)
  }

  /** Commits with a foreign endpoint on the network, and nothing goes wrong afterwards. */
  ghost predicate BlindCommit(n: Names, script: nat -> Event, from: nat, log: seq<Entry>) {
    exists k: nat :: AdmitsAt(n, script, from, log, k)
                     && Foreigners(n, log[k].state.attached) != {} && QuietFrom(script, log[k].tick + 1)
  }

  /** A run that committed: preparation, then at position k the listing that admitted the commit,
      then the commit itself. A truthful listing rules out foreign ghosts. */
  ghost predicate CommittedAt(n: Names, script: nat -> Event, cidr: string, h0: HostState,
                              before: seq<Entry>, after: seq<Entry>, k: nat)
  {
    && AdmitsAt(n, script, |before|, after, k)
    && OnlyPrepared(before, after[..k + 1])
    && !after[k].reply.failed && Foreigners(n, after[k].reply.names) == {}
    && CommitCommands(cidr, after[k + 1..])
    && (script(after[k].tick).fault != DaemonError ==>
          forall c :: c in h0.attached && c in n.ghosts ==> !n.Foreign(c))
  }

  /** The state a clean migration leaves. */
  function Migrated(n: Names, h: HostState, cidr: string): HostState {
    h.(network := Some(cidr), attached := {}, agentUp := false, proxyUp := false,
       unitActive := false, rules := FlushedRules(h))
  }

  /** What a fault-free run does from state h0 when the subnet does not match. */
  ghost predicate CleanMigration(n: Names, cidr: string, h0: HostState, h: HostState, r: Outcome) {
    if h0.attached * n.ghosts == {} then
      h == Migrated(n, h0, cidr) && r == Outcome(true, None)
    else if Foreigners(n, h0.attached * n.ghosts) != {} then
      && !r.migrated && r.err.Some? && r.err.value.Unclearable?
      && r.err.value.endpoint in Foreigners(n, h0.attached * n.ghosts)
      && h == h0.(attached := h0.attached - (Foreigners(n, h0.attached) - n.ghosts))
    else
      r == Outcome(false, Some(NetworkRemoveFailed)) && !h.agentUp && h.network == h0.network
  }

  /** What a fault-free run does from any state h0. */
  ghost predicate CleanRun(n: Names, cidr: string, h0: HostState, h: HostState, r: Outcome) {
    if h0.network == Some(cidr) then
      h == h0 && r == Outcome(false, None)
    else if h0.network.None? then
      h == h0.(network := Some(cidr)) && r == Outcome(false, None)
    else if h0.network == Some("") then
      h == h0 && r == Outcome(false, Some(CreateFailed))
    else
      CleanMigration(n, cidr, h0, h, r)
  }

  /** The log grew, and every new entry is a preparation command. */
  ghost predicate OnlyPrepared(before: seq<Entry>, after: seq<Entry>) {
    && |before| <= |after| && after[..|before|] == before
    && forall j :: |before| <= j < |after| ==> IsPreparation(after[j].cmd)
  }

  ghost predicate NeverCommitted(cidr: string, before: seq<Entry>, after: seq<Entry>) {
    && |before| < |after| && after[..|before|] == before
    && forall j :: |before| <= j < |after| ==> IsPreparation(after[j].cmd) || after[j].cmd == CreateNetwork(cidr)
  }

  /** `docker network disconnect -f` on every foreign endpoint of the listing. */
  method DisconnectForeign(t: Host, listed: set<string>)
    modifies t
    ensures Untouched(t.names, old(t.h), t.h)
    ensures OnlyPrepared(old(t.log), t.log) && t.clock == old(t.clock) + (|t.log| - |old(t.log)|)
    ensures forall j :: |old(t.log)| <= j < |t.log| ==> t.log[j].cmd.Disconnect?
    ensures Foreigners(t.names, listed) == {} ==> t.h == old(t.h) && t.clock == old(t.clock)
    ensures QuietFrom(t.script, old(t.clock)) ==>
              t.h == old(t.h).(attached := old(t.h).attached - (Foreigners(t.names, listed) - t.names.ghosts))
  {
    ghost var h0, log0, clock0, n := t.h, t.log, t.clock, t.names;
    var todo := listed;
    while todo != {}
      invariant todo <= listed
      invariant Untouched(n, h0, t.h)
      invariant OnlyPrepared(log0, t.log) && t.clock == clock0 + (|t.log| - |log0|)
      invariant forall j :: |log0| <= j < |t.log| ==> t.log[j].cmd.Disconnect?
      invariant Foreigners(n, listed) == {} ==> t.h == h0 && t.clock == clock0
      invariant QuietFrom(t.script, clock0) ==>
                  t.h == h0.(attached := h0.attached - (Foreigners(n, listed - todo) - n.ghosts))
      decreases todo
    {
      var c :| c in todo;
      ghost var seen := listed - todo;
      todo := todo - {c};
      assert listed - todo == seen + {c};
      if c == t.names.agent || c == t.names.proxy {
        assert Foreigners(n, seen + {c}) == Foreigners(n, seen);
        continue;
      }
      assert c in Foreigners(n, listed);
      assert Foreigners(n, seen + {c}) == Foreigners(n, seen) + {c};
      ghost var h2, clock2 := t.h, t.clock;
      var ignored := t.RunCommand(Disconnect(c));
      PreparationIsHarmless(n, h0, h2, t.script(clock2), Disconnect(c));
    }
    assert listed - todo == listed;
  }

  /** The first listing, and the disconnects it calls for. */
  method ClearForeign(t: Host) returns (heard: bool)
    modifies t
    ensures Untouched(t.names, old(t.h), t.h)
    ensures OnlyPrepared(old(t.log), t.log) && t.clock == old(t.clock) + (|t.log| - |old(t.log)|)
    ensures |t.log| > |old(t.log)| && t.log[|old(t.log)|].cmd == ListEndpoints
    ensures forall j :: |old(t.log)| < j < |t.log| ==> t.log[j].cmd.Disconnect?
    ensures heard <==> Heard(t.script(old(t.clock)).fault)
    ensures !heard ==> |t.log| == |old(t.log)| + 1 && t.log[|old(t.log)|].state == t.h && t.log[|old(t.log)|].tick == t.clock - 1
    ensures QuietFrom(t.script, old(t.clock)) ==>
              t.h == old(t.h).(attached := old(t.h).attached - (Foreigners(t.names, old(t.h).attached) - t.names.ghosts))
    ensures t.script(old(t.clock)) == Event(DaemonError, {}, false) ==> t.h == old(t.h) && t.clock == old(t.clock) + 1
  {
    ghost var h0, clock0, log0, n := t.h, t.clock, t.log, t.names;
    var listed := t.RunCommand(ListEndpoints);
    PreparationIsHarmless(n, h0, h0, t.script(clock0), ListEndpoints);
    heard := !listed.failed;
    if heard {
      ghost var h1, log1 := t.h, t.log;
      DisconnectForeign(t, listed.names);
      UntouchedTransitive(n, h0, h1, t.h);
      Extended(log0, log1, t.log);
      assert t.log[|log0|] == t.log[..|log1|][|log0|];
    }
  }

  /** Everything that can block a migration, done before the agent is touched. */
  method Prepare(t: Host) returns (err: Option<Error>)
    modifies t
    ensures Untouched(t.names, old(t.h), t.h)
    ensures OnlyPrepared(old(t.log), t.log) && t.clock == old(t.clock) + (|t.log| - |old(t.log)|)
    ensures |t.log| > |old(t.log)| && t.log[|t.log| - 1].state == t.h && t.log[|t.log| - 1].tick == t.clock - 1
    // It succeeds exactly when both listings come back and the second one shows no foreign
    // endpoint, for want of one or because Docker's refusal was swallowed.
    ensures err.None? <==>
              && Heard(t.script(old(t.clock)).fault) && Heard(t.script(t.clock - 1).fault)
              && (t.script(t.clock - 1).fault == DaemonError || Foreigners(t.names, t.h.attached) == {})
    ensures forall k: nat :: AdmitsAt(t.names, t.script, |old(t.log)|, t.log, k) <==> err.None? && k == |t.log| - 1
    ensures err.None? ==>
              var last := t.log[|t.log| - 1];
              last.cmd == ListEndpoints && !last.reply.failed && Foreigners(t.names, last.reply.names) == {}
    ensures err.None? && t.script(t.clock - 1).fault != DaemonError ==>
              forall c :: c in old(t.h).attached && c in t.names.ghosts ==> !t.names.Foreign(c)
    ensures QuietFrom(t.script, old(t.clock)) ==>
              && t.h == old(t.h).(attached := old(t.h).attached
                                              - (Foreigners(t.names, old(t.h).attached) - t.names.ghosts))
              && var stuck := Foreigners(t.names, old(t.h).attached * t.names.ghosts);
                 if stuck == {} then err.None? else err.Some? && err.value.Unclearable? && err.value.endpoint in stuck
    ensures BothBlind(t.script, old(t.clock)) ==>
              err.None? && t.h == old(t.h) && t.clock == old(t.clock) + 2
  {
    ghost var h0, clock0, log0, n := t.h, t.clock, t.log, t.names;
    var heard := ClearForeign(t);
    if !heard {
      assert forall k: nat :: !Relists(|log0|, t.log, k);
      return Some(ListFailed);
    }
    ghost var h2, clock2, log2 := t.h, t.clock, t.log;
    var remaining := t.RunCommand(ListEndpoints);
    PreparationIsHarmless(n, h0, h2, t.script(clock2), ListEndpoints);
    Extended(log0, log2, t.log);
    OneRelisting(log0, log2, t.log);
    assert QuietFrom(t.script, clock0) ==>
             Foreigners(n, remaining.names) == Foreigners(n, h0.attached * n.ghosts);
    if remaining.failed {
      return Some(RelistFailed);
    }
    if c :| c in remaining.names && c != t.names.agent && c != t.names.proxy {
      assert c in Foreigners(n, remaining.names);
      return Some(Unclearable(c));
    }
    assert AdmitsAt(n, t.script, |log0|, t.log, |log2|);
    err := None;
  }

  /** After a listing and some disconnects the next listing is the one that is not the first. */
  lemma OneRelisting(before: seq<Entry>, mid: seq<Entry>, after: seq<Entry>)
    requires |before| < |mid| && |after| == |mid| + 1 && after[..|mid|] == mid
    requires mid[|before|].cmd == ListEndpoints && after[|mid|].cmd == ListEndpoints
    requires forall j :: |before| < j < |mid| ==> mid[j].cmd.Disconnect?
    ensures forall k: nat :: Relists(|before|, after, k) <==> k == |mid|
  {
    assert forall j :: 0 <= j < |mid| ==> after[j] == mid[j];
    assert after[|before|].cmd == ListEndpoints;
  }

  /** A flush sent at time c to a host in state h is delivered, and finds the agent's container
      there to be asked for its address. */
  predicate FlushGetsThrough(n: Names, script: nat -> Event, c: nat, h: HostState) {
    Delivered(script(c).fault) && Arrive(h, n, script(c)).agentUp
  }

  /** The rules of the agent's address are gone if `flushed`, and nothing else in the chain has
      changed. */
  ghost predicate RulesFlushed(was: HostState, now: HostState, flushed: bool) {
    && now.agentIP == was.agentIP
    && (flushed ==> forall ip :: was.agentIP == Some(ip) ==> now.rules == Flushed(was.rules, ip))
    && (!flushed || was.agentIP.None? ==> now.rules == was.rules)
  }

  /** With a flush the agent's address has no rule left, and no other address has lost one. */
  lemma FlushedMeans(was: HostState, now: HostState, flushed: bool)
    requires RulesFlushed(was, now, flushed)
    ensures OnlyFlushed(was, now)
    ensures flushed && was.agentIP.Some? ==> Mine(now.rules, was.agentIP.value) == []
  {
    if flushed && was.agentIP.Some? {
      FlushIsOwn(was.rules, was.agentIP.value, was.agentIP.value);
    }
  }

  /** The rules after a run that was admitted at entry k: flushed exactly if the first command of
      its commit got through. */
  ghost predicate FlushedAsAdmitted(n: Names, script: nat -> Event, log: seq<Entry>, k: nat, was: HostState, now: HostState)
    requires k < |log|
  {
    RulesFlushed(was, now, FlushGetsThrough(n, script, log[k].tick + 1, log[k].state))
  }

  /** The commit of a fault-free run on a running agent flushes. */
  lemma QuietFlush(n: Names, script: nat -> Event, c: nat, h: HostState)
    requires script(c) == QUIET
    ensures FlushGetsThrough(n, script, c, h) <==> h.agentUp
  {
  }

  /** The network is the one there was, the planned one, or gone. */
  predicate SubnetKept(was: HostState, now: HostState, cidr: string) {
    now.network == was.network || now.network.None? || now.network == Some(cidr)
  }

  /** Flush, stop, remove agent, remove proxy: none of them is checked. */
  method TearDown(t: Host)
    modifies t
    ensures t.clock == old(t.clock) + 4 && t.h.network == old(t.h).network
    ensures |t.log| == |old(t.log)| + 4 && t.log[..|old(t.log)|] == old(t.log)
    ensures RulesFlushed(old(t.h), t.h, FlushGetsThrough(t.names, t.script, old(t.clock), old(t.h)))
    ensures var l := t.log[|old(t.log)|..];
            l[0].cmd == FlushOldRules && l[1].cmd == StopUnit && l[2].cmd == RemoveAgent && l[3].cmd == RemoveProxy
    ensures QuietFrom(t.script, old(t.clock)) ==>
              t.h == old(t.h).(attached := old(t.h).attached - ({t.names.agent, t.names.proxy} - t.names.ghosts),
                               agentUp := false, proxyUp := false, unitActive := false,
                               rules := FlushedRules(old(t.h)))
  {
    var ignored := t.RunCommand(FlushOldRules);
    ignored := t.RunCommand(StopUnit);
    ignored := t.RunCommand(RemoveAgent);
    ignored := t.RunCommand(RemoveProxy);
    assert QuietFrom(t.script, old(t.clock)) ==>
             t.h.attached == old(t.h).attached - ({t.names.agent, t.names.proxy} - t.names.ghosts);
  }

  /** What a fault-free commit does: it fails exactly when taking down agent and proxy leaves an
      endpoint attached. */
  ghost predicate CleanCommit(n: Names, cidr: string, h0: HostState, h: HostState, r: Outcome) {
    if h0.attached - ({n.agent, n.proxy} - n.ghosts) == {} then
      h == Migrated(n, h0, cidr) && r == Outcome(true, None)
    else
      r == Outcome(false, Some(NetworkRemoveFailed)) && !h.agentUp && h.network == h0.network
  }

  /** The one brief window in which the agent is down. */
  method Commit(t: Host, cidr: string) returns (r: Outcome)
    modifies t
    ensures |t.log| >= |old(t.log)| + 5 && t.log[..|old(t.log)|] == old(t.log)
    ensures t.clock == old(t.clock) + (|t.log| - |old(t.log)|)
    ensures CommitCommands(cidr, t.log[|old(t.log)|..])
    ensures SubnetKept(old(t.h), t.h, cidr)
    ensures RulesFlushed(old(t.h), t.h, FlushGetsThrough(t.names, t.script, old(t.clock), old(t.h)))
    ensures r.err.None? ==> t.h.network == Some(cidr)
    ensures r.migrated ==> t.h.attached == {} && (t.h.network == Some(cidr) || t.h.network.None?)
    ensures QuietFrom(t.script, old(t.clock)) && old(t.h).network.Some? ==>
              CleanCommit(t.names, cidr, old(t.h), t.h, r)
  {
    TearDown(t);
    var removed := t.RunCommand(RemoveNetwork);
    if removed.failed {
      return Outcome(false, Some(NetworkRemoveFailed));
    }
    var created := t.RunCommand(CreateNetwork(cidr));
    r := Outcome(true, if created.failed then Some(CreateFailed) else None);
  }

  /** A foreign endpoint is one that taking down agent and proxy does not detach. */
  lemma ForeignStays(n: Names, attached: set<string>)
    requires Foreigners(n, attached) != {}
    ensures attached - ({n.agent, n.proxy} - n.ghosts) != {}
  {
    var c :| c in Foreigners(n, attached);
    assert c in attached - ({n.agent, n.proxy} - n.ghosts);
  }

  /** A clean preparation and a clean commit make a clean migration. */
  lemma CleanFromCommit(n: Names, cidr: string, h0: HostState, h1: HostState, h: HostState, r: Outcome)
    requires h1 == h0.(attached := h0.attached - (Foreigners(n, h0.attached) - n.ghosts))
    requires Foreigners(n, h0.attached * n.ghosts) == {} && CleanCommit(n, cidr, h1, h, r)
    ensures CleanMigration(n, cidr, h0, h, r)
  {
    var own := h1.attached - ({n.agent, n.proxy} - n.ghosts);
    assert forall c :: c in own <==> c in h0.attached * n.ghosts by {
      forall c
        ensures c in own <==> c in h0.attached * n.ghosts
      {
        assert c in Foreigners(n, h0.attached * n.ghosts) <==> c in h0.attached * n.ghosts && n.Foreign(c);
      }
    }
  }

  /** Puts the account of a committed run together from its three parts. What admits it is settled
      before the commit. */
  lemma CommittedLog(n: Names, script: nat -> Event, cidr: string, h0: HostState,
                     before: seq<Entry>, mid: seq<Entry>, after: seq<Entry>)
    requires OnlyPrepared(before, mid) && |before| < |mid| <= |after| && after[..|mid|] == mid
    requires var last := mid[|mid| - 1]; !last.reply.failed && Foreigners(n, last.reply.names) == {}
    requires forall k: nat :: AdmitsAt(n, script, |before|, mid, k) <==> k == |mid| - 1
    requires CommitCommands(cidr, after[|mid|..])
    requires script(mid[|mid| - 1].tick).fault != DaemonError ==>
               forall c :: c in h0.attached && c in n.ghosts ==> !n.Foreign(c)
    ensures CommittedAt(n, script, cidr, h0, before, after, |mid| - 1) && after[|mid| - 1] == mid[|mid| - 1]
    ensures Admits(n, script, |before|, after)
    ensures BlindCommit(n, script, |before|, after) ==>
              Foreigners(n, mid[|mid| - 1].state.attached) != {} && QuietFrom(script, mid[|mid| - 1].tick + 1)
  {
    assert forall j :: 0 <= j < |mid| ==> after[j] == mid[j];
    assert forall j :: |mid| <= j < |after| ==> after[j] == after[|mid|..][j - |mid|];
    assert after[..|mid| - 1 + 1] == mid;
    assert AdmitsAt(n, script, |before|, mid, |mid| - 1);
    forall k: nat
      ensures AdmitsAt(n, script, |before|, after, k) <==> AdmitsAt(n, script, |before|, mid, k)
    {
    }
  }

  /** The commit after a preparation from state h0: `clean` says that nothing has gone or will go
      wrong, `doomed` that only a foreign endpoint stands in the way. */
  method CommitPrepared(t: Host, cidr: string, ghost h0: HostState, ghost clean: bool, ghost doomed: bool)
      returns (r: Outcome)
    requires clean || doomed ==> QuietFrom(t.script, t.clock) && t.h.network.Some?
    requires clean ==> t.h == h0.(attached := h0.attached - (Foreigners(t.names, h0.attached) - t.names.ghosts))
    requires clean ==> Foreigners(t.names, h0.attached * t.names.ghosts) == {}
    requires doomed ==> Foreigners(t.names, t.h.attached) != {}
    modifies t
    ensures |t.log| >= |old(t.log)| + 5 && t.log[..|old(t.log)|] == old(t.log)
    ensures t.clock == old(t.clock) + (|t.log| - |old(t.log)|)
    ensures CommitCommands(cidr, t.log[|old(t.log)|..])
    ensures SubnetKept(old(t.h), t.h, cidr)
    ensures RulesFlushed(old(t.h), t.h, FlushGetsThrough(t.names, t.script, old(t.clock), old(t.h)))
    ensures r.err.None? ==> t.h.network == Some(cidr)
    ensures r.migrated ==> t.h.attached == {} && (t.h.network == Some(cidr) || t.h.network.None?)
    ensures clean ==> CleanMigration(t.names, cidr, h0, t.h, r)
    ensures doomed ==> r == Outcome(false, Some(NetworkRemoveFailed)) && !t.h.agentUp
  {
    ghost var h1 := t.h;
    if doomed {
      ForeignStays(t.names, h1.attached);
    }
    r := Commit(t, cidr);
    if clean {
      CleanFromCommit(t.names, cidr, h0, h1, t.h, r);
    }
  }

  /** The subnet does not match: prepare, and commit only if that succeeded. */
  method Migrate(t: Host, cidr: string) returns (r: Outcome, ghost committed: bool, ghost k: nat)
    modifies t
    ensures !committed ==> !r.migrated && r.err.Some? && Untouched(t.names, old(t.h), t.h)
    ensures !committed ==> OnlyPrepared(old(t.log), t.log)
    ensures committed ==> CommittedAt(t.names, t.script, cidr, old(t.h), old(t.log), t.log, k)
    ensures committed <==> Admits(t.names, t.script, |old(t.log)|, t.log)
    ensures BlindCommit(t.names, t.script, |old(t.log)|, t.log) && old(t.h).network.Some? ==>
              r == Outcome(false, Some(NetworkRemoveFailed)) && !t.h.agentUp
    ensures SubnetKept(old(t.h), t.h, cidr)
    ensures committed ==> FlushedAsAdmitted(t.names, t.script, t.log, k, old(t.h), t.h)
    ensures r.err.None? ==> t.h.network == Some(cidr)
    ensures r.migrated ==> t.h.attached == {} && (t.h.network == Some(cidr) || t.h.network.None?)
    ensures t.clock >= old(t.clock)
    ensures QuietFrom(t.script, old(t.clock)) && old(t.h).network.Some? ==>
              CleanMigration(t.names, cidr, old(t.h), t.h, r)
    ensures BothBlind(t.script, old(t.clock)) && QuietFrom(t.script, old(t.clock) + 2) &&
            old(t.h).network.Some? && Foreigners(t.names, old(t.h).attached) != {} ==>
              r == Outcome(false, Some(NetworkRemoveFailed)) && !t.h.agentUp
  {
    ghost var h0, log0, clock0 := t.h, t.log, t.clock;
    var err := Prepare(t);
    committed := err.None?;
    if err.Some? {
      return Outcome(false, err), committed, 0;
    }
    ghost var mid := t.log;
    k := |mid| - 1;
    ghost var doomed := Foreigners(t.names, t.h.attached) != {} && QuietFrom(t.script, t.clock) && h0.network.Some?;
    ghost var blind := BothBlind(t.script, clock0) && QuietFrom(t.script, clock0 + 2) && h0.network.Some?;
    assert blind && Foreigners(t.names, h0.attached) != {} ==> doomed;
    r := CommitPrepared(t, cidr, h0, QuietFrom(t.script, clock0) && h0.network.Some?, doomed);
    CommittedLog(t.names, t.script, cidr, h0, log0, mid, t.log);
  }

  lemma Extended(before: seq<Entry>, mid: seq<Entry>, after: seq<Entry>)
    requires OnlyPrepared(before, mid) && OnlyPrepared(mid, after)
    ensures OnlyPrepared(before, after)
  {
    forall j | |before| <= j < |after|
      ensures IsPreparation(after[j].cmd)
    {
      if j < |mid| {
        assert after[j] == after[..|mid|][j];
      }
    }
    assert after[..|before|] == after[..|mid|][..|before|];
  }

  /** One inspection before a migration changes nothing in the account of the migration. */
  lemma OneCommandEarlier(n: Names, script: nat -> Event, cidr: string, h0: HostState, h1: HostState,
                          before: seq<Entry>, log1: seq<Entry>, after: seq<Entry>, k: nat)
    requires |log1| == |before| + 1 <= |after| && OnlyPrepared(before, log1) && after[..|log1|] == log1
    requires log1[|before|].cmd == InspectSubnet && Untouched(n, h0, h1)
    ensures Admits(n, script, |log1|, after) <==> Admits(n, script, |before|, after)
    ensures BlindCommit(n, script, |log1|, after) <==> BlindCommit(n, script, |before|, after)
    ensures CommittedAt(n, script, cidr, h1, log1, after, k) ==> CommittedAt(n, script, cidr, h0, before, after, k)
  {
    assert after[|before|] == log1[|before|];
    assert forall i: nat :: AdmitsAt(n, script, |log1|, after, i) <==> AdmitsAt(n, script, |before|, after, i);
    if CommittedAt(n, script, cidr, h1, log1, after, k) {
      Extended(before, log1, after[..k + 1]);
    }
  }

  /** A clean run that migrated a running agent has left no rule of its address. */
  lemma CleanRunFlushes(n: Names, cidr: string, h0: HostState, h: HostState, r: Outcome)
    ensures CleanMigration(n, cidr, h0, h, r) && r.migrated && h0.agentUp && h0.agentIP.Some? ==>
              Mine(h.rules, h0.agentIP.value) == []
  {
    if h0.agentIP.Some? {
      FlushIsOwn(h0.rules, h0.agentIP.value, h0.agentIP.value);
    }
  }

  /** Reads the CIDR of the agent's network; empty when Docker says nothing. */
  method InspectNetwork(t: Host) returns (r: Reply)
    modifies t
    ensures Untouched(t.names, old(t.h), t.h)
    ensures old(t.h).network.None? ==> t.h == old(t.h)
    ensures t.log == old(t.log) + [Entry(InspectSubnet, r, t.h, old(t.clock))] && t.clock == old(t.clock) + 1
    ensures !r.failed && r.cidr != "" ==> t.h.network == Some(r.cidr)
    ensures t.script(old(t.clock)) == QUIET ==>
              && t.h == old(t.h)
              && r == Reply(if t.h.network.Some? then t.h.network.value else "", {}, false)
  {
    ghost var h0 := t.h;
    r := t.RunCommand(InspectSubnet);
    PreparationIsHarmless(t.names, h0, h0, t.script(t.clock - 1), InspectSubnet);
  }

  method CreateAgentNetwork(t: Host, cidr: string) returns (err: Option<Error>)
    modifies t
    ensures |t.log| == |old(t.log)| + 1 && t.log[..|old(t.log)|] == old(t.log)
    ensures t.log[|old(t.log)|].cmd == CreateNetwork(cidr) && t.clock == old(t.clock) + 1
    ensures if old(t.h).network.None?
            then t.h == old(t.h) || t.h == old(t.h).(network := Some(cidr))
            else Untouched(t.names, old(t.h), t.h)
    ensures err.None? ==> t.h.network == Some(cidr)
    ensures t.script(old(t.clock)) == QUIET ==>
              if old(t.h).network.None?
              then err.None? && t.h == old(t.h).(network := Some(cidr))
              else err == Some(CreateFailed) && t.h == old(t.h)
  {
    var created := t.RunCommand(CreateNetwork(cidr));
    err := if created.failed then Some(CreateFailed) else None;
  }

  method ReconcileAgentNetwork(t: Host, cidr: string) returns (r: Outcome, ghost committed: bool, ghost k: nat)
    requires cidr != ""
    modifies t
    // Fail-safe prepare: a run that never commits leaves agent, proxy, rules and subnet
    // alone; at most it creates a network where there was none.
    ensures !committed ==> !r.migrated
    ensures !committed ==> Untouched(t.names, old(t.h), t.h) ||
                           (old(t.h).network.None? && t.h == old(t.h).(network := Some(cidr)))
    ensures !committed ==> NeverCommitted(cidr, old(t.log), t.log)
    // Commit starts only after a listing that shows no foreign endpoint, runs in order, and
    // if that listing was truthful there was no foreign ghost on the network.
    ensures committed ==> CommittedAt(t.names, t.script, cidr, old(t.h), old(t.log), t.log, k)
    // And it starts exactly when a second listing comes back that shows no foreign endpoint:
    // none is attached, or Docker's refusal of that listing was swallowed. With one attached,
    // and nothing going wrong afterwards, the agent ends up down on the old network.
    ensures committed <==> Admits(t.names, t.script, |old(t.log)|, t.log)
    ensures BlindCommit(t.names, t.script, |old(t.log)|, t.log) ==>
              r == Outcome(false, Some(NetworkRemoveFailed)) && !t.h.agentUp
    // A nil error means the planned subnet; migrated means the old network is gone and
    // nothing is attached to it or to its successor.
    ensures r.err.None? ==> t.h.network == Some(cidr)
    ensures r.migrated ==> t.h.attached == {} && (t.h.network == Some(cidr) || t.h.network.None?)
    ensures SubnetKept(old(t.h), t.h, cidr)
    // The rules of the agent's address are gone exactly if a flush got through while its container
    // was there, as after every clean migration of a running agent; no other rule is touched.
    ensures OnlyFlushed(old(t.h), t.h)
    ensures committed ==> FlushedAsAdmitted(t.names, t.script, t.log, k, old(t.h), t.h)
    ensures QuietFrom(t.script, old(t.clock)) && r.migrated && old(t.h).agentUp && old(t.h).agentIP.Some? ==>
              Mine(t.h.rules, old(t.h).agentIP.value) == []
    ensures t.clock >= old(t.clock)
    // Fault-free runs, from any state at all.
    ensures QuietFrom(t.script, old(t.clock)) ==> CleanRun(t.names, cidr, old(t.h), t.h, r)
    ensures QuietFrom(t.script, old(t.clock)) && old(t.h).network == Some(cidr) ==>
              t.log == old(t.log) + [Entry(InspectSubnet, Reply(cidr, {}, false), t.h, old(t.clock))]
    // When both listings are swallowed the prepare phase sees nothing, and a foreign
    // endpoint on the network leaves the agent down.
    ensures BlindListings(t.script, old(t.clock)) && old(t.h).network.Some? &&
            old(t.h).network != Some(cidr) && old(t.h).network != Some("") &&
            Foreigners(t.names, old(t.h).attached) != {} ==>
              r == Outcome(false, Some(NetworkRemoveFailed)) && !t.h.agentUp
  {
    ghost var h0, log0, clock0 := t.h, t.log, t.clock;
    committed, k := false, 0;
    var inspected := InspectNetwork(t);
    if inspected.failed {
      return Outcome(false, Some(InspectFailed)), committed, 0;
    }
    if inspected.cidr == cidr {
      return Outcome(false, None), committed, 0;
    }
    ghost var h1, log1 := t.h, t.log;
    if inspected.cidr == "" {
      var err := CreateAgentNetwork(t, cidr);
      if h0.network.Some? {
        UntouchedTransitive(t.names, h0, h1, t.h);
      }
      return Outcome(false, err), committed, 0;
    }
    r, committed, k := Migrate(t, cidr);
    OneCommandEarlier(t.names, t.script, cidr, h0, h1, log0, log1, t.log, k);
    CleanRunFlushes(t.names, cidr, h0, t.h, r);
    if !committed {
      UntouchedTransitive(t.names, h0, h1, t.h);
      Extended(log0, log1, t.log);
    }
  }

  /** Convergence: from any state at all, and so from what any number of runs that went wrong
      have left, one fault-free run on a host without ghosts succeeds on the planned subnet, and
      one more only inspects. The one state left out, a network whose subnet reads as empty, is
      never produced by a run: SubnetKept says what a run leaves. */
  method ConvergeAfterAborts(t: Host, cidr: string) returns (first: Outcome, second: Outcome)
    requires cidr != "" && QuietFrom(t.script, t.clock)
    requires t.h.attached * t.names.ghosts == {} && t.h.network != Some("")
    modifies t
    ensures CleanRun(t.names, cidr, old(t.h), t.h, first)
    ensures first == Outcome(old(t.h).network.Some? && old(t.h).network != Some(cidr), None)
    ensures second == Outcome(false, None) && t.h.network == Some(cidr)
    ensures first.migrated && old(t.h).agentUp && old(t.h).agentIP.Some? ==> Mine(t.h.rules, old(t.h).agentIP.value) == []
    ensures |t.log| >= |old(t.log)| + 2
    ensures var last := t.log[|t.log| - 1];
            last.cmd == InspectSubnet && last.reply == Reply(cidr, {}, false) && last.state == t.h
  {
    ghost var c1, c2, k1, k2;
    first, c1, k1 := ReconcileAgentNetwork(t, cidr);
    second, c2, k2 := ReconcileAgentNetwork(t, cidr);
  }

  /** Two agents' containers and proxies never share a name, unless one agent is called
      "egress-" followed by the other's name: then its container is the other's proxy. */
  lemma ContainerNamesDisjoint(a: string, b: string)
    requires a != b
    ensures ContainerName(a) != ContainerName(b) && ProxyName(a) != ProxyName(b)
    ensures ContainerName(a) == ProxyName(b) <==> a == "egress-" + b
  {
    assert ContainerName(a)[6..] == a && ContainerName(b)[6..] == b;
    assert ProxyName(a)[13..] == a && ProxyName(b)[13..] == b;
    assert ProxyName(b)[..6] == "conga-";
    assert ProxyName(b)[6..] == "egress-" + b;
  }
}
