/** Per-agent policies: additive egress merge over shared policy objects
    (pkg/policy/policy.go) and block subtraction (pkg/policy/egress.go). */
module Policy {
  import opened Optional
  import opened Strings
  import opened Sequences

  const ENFORCE := "enforce"
  const VALIDATE := "validate"

  // ---- Policies as values ----

  datatype Egress = Egress(allowed: seq<string>, blocked: seq<string>, mode: string)

  datatype ModelValue = ModelValue(provider: string, model: string, costIn: real, costOut: real)

  datatype Limits = Limits(dailyPerAgent: real, monthlyPerAgent: real, monthlyGlobal: real)

  datatype PostureValue = PostureValue(isolation: string, backend: string, monitoring: string, frameworks: seq<string>)

  /** Keeps the first entry of every case-insensitive key, in order. */
  function FirstOfEach(s: seq<string>): seq<string> {
    if s == [] then []
    else
      var init := s[..|s| - 1];
      var last := s[|s| - 1];
      if ToLower(last) in LowerSet(init) then FirstOfEach(init) else FirstOfEach(init) + [last]
  }

  lemma {:induction false} FirstOfEachKeys(s: seq<string>)
    ensures LowerSet(FirstOfEach(s)) == LowerSet(s)
    ensures forall i, j :: 0 <= i < j < |FirstOfEach(s)| ==> ToLower(FirstOfEach(s)[i]) != ToLower(FirstOfEach(s)[j])
  {
    if s != [] {
      var init, last := s[..|s| - 1], s[|s| - 1];
      FirstOfEachKeys(init);
      assert s == init + [last];
      LowerSetConcat(init, [last]);
      assert LowerSet([last]) == {ToLower(last)};
      if ToLower(last) !in LowerSet(init) {
        LowerSetConcat(FirstOfEach(init), [last]);
        forall i | 0 <= i < |FirstOfEach(init)|
          ensures ToLower(FirstOfEach(init)[i]) != ToLower(last)
        {
          assert ToLower(FirstOfEach(init)[i]) in LowerSet(FirstOfEach(init));
        }
      }
    }
  }

  lemma {:induction false} FirstOfEachMembers(s: seq<string>)
    ensures forall d :: d in FirstOfEach(s) ==> d in s
  {
    if s != [] {
      FirstOfEachMembers(s[..|s| - 1]);
      assert s == s[..|s| - 1] + [s[|s| - 1]];
    }
  }

  /** Kept is the first entry of every key, as it is written and where it stands. */
  lemma {:induction false} FirstOfEachPicks(s: seq<string>) returns (at: seq<nat>)
    ensures Picks(s, FirstOfEach(s), at, (before: seq<string>, d: string) => ToLower(d) !in LowerSet(before))
  {
    at := [];
    if s != [] {
      var init, last := s[..|s| - 1], s[|s| - 1];
      at := FirstOfEachPicks(init);
      at := PicksSnoc(init, FirstOfEach(init), at, (before: seq<string>, d: string) => ToLower(d) !in LowerSet(before), last);
      assert init + [last] == s;
    }
  }

  function Union(base: seq<string>, extra: seq<string>): seq<string> {
    if extra == [] then base else FirstOfEach(base + extra)
  }

  lemma UnionKeys(base: seq<string>, extra: seq<string>)
    ensures LowerSet(Union(base, extra)) == LowerSet(base) + LowerSet(extra)
  {
    FirstOfEachKeys(base + extra);
    LowerSetConcat(base, extra);
  }

  function Normalized(e: Option<Egress>): Option<Egress> {
    if e.Some? && e.value.mode == "" then Some(e.value.(mode := ENFORCE)) else e
  }

  function UnionEgress(global: Option<Egress>, own: Option<Egress>): Option<Egress> {
    if own.None? then global
    else if global.None? then own
    else Some(Egress(Union(global.value.allowed, own.value.allowed),
                     Union(global.value.blocked, own.value.blocked),
                     own.value.mode))
  }

  /** The egress section of a merged policy; the mode default is filled in only when the
      agent has an override at all. */
  function MergedEgress(global: Option<Egress>, overridden: bool, own: Option<Egress>): Option<Egress> {
    if overridden then Normalized(UnionEgress(global, own)) else global
  }

  /** The allowed domains that no blocked domain takes away. */
  function Effective(e: Option<Egress>): seq<string> {
    if e.None? then [] else Unblocked(e.value.allowed, LowerSet(e.value.blocked))
  }

  function Unblocked(allowed: seq<string>, blocked: set<string>): seq<string> {
    if allowed == [] then []
    else
      var init := allowed[..|allowed| - 1];
      var last := allowed[|allowed| - 1];
      if ToLower(last) in blocked then Unblocked(init, blocked) else Unblocked(init, blocked) + [last]
  }

  lemma {:induction false} UnblockedMembers(allowed: seq<string>, blocked: set<string>)
    ensures forall d :: d in Unblocked(allowed, blocked) <==> d in allowed && ToLower(d) !in blocked
  {
    if allowed != [] {
      var init := allowed[..|allowed| - 1];
      UnblockedMembers(init, blocked);
      assert allowed == init + [allowed[|allowed| - 1]];
    }
  }

  /** What stays of the allowed list stays in its order. */
  lemma {:induction false} UnblockedPicks(allowed: seq<string>, blocked: set<string>) returns (at: seq<nat>)
    ensures Picks(allowed, Unblocked(allowed, blocked), at, (before: seq<string>, d: string) => ToLower(d) !in blocked)
  {
    at := [];
    if allowed != [] {
      var init, last := allowed[..|allowed| - 1], allowed[|allowed| - 1];
      at := UnblockedPicks(init, blocked);
      at := PicksSnoc(init, Unblocked(init, blocked), at, (before: seq<string>, d: string) => ToLower(d) !in blocked, last);
      assert init + [last] == allowed;
    }
  }

  function AllowedKeys(e: Option<Egress>): set<string> {
    if e.Some? then LowerSet(e.value.allowed) else {}
  }

  function BlockedKeys(e: Option<Egress>): set<string> {
    if e.Some? then LowerSet(e.value.blocked) else {}
  }

  lemma EffectiveKeys(e: Option<Egress>)
    ensures LowerSet(Effective(e)) == AllowedKeys(e) - BlockedKeys(e)
  {
    if e.Some? {
      UnblockedMembers(e.value.allowed, LowerSet(e.value.blocked));
    }
  }

  /** What a merge means: up to case the agent reaches exactly what the global policy or its
      own allows, less what either blocks, whichever sections are absent or empty. */
  lemma MergeMeaning(global: Option<Egress>, overridden: bool, own: Option<Egress>)
    requires !overridden ==> own.None?
    ensures LowerSet(Effective(MergedEgress(global, overridden, own)))
            == (AllowedKeys(global) + AllowedKeys(own)) - (BlockedKeys(global) + BlockedKeys(own))
    ensures var m := MergedEgress(global, overridden, own);
            && (m.Some? <==> global.Some? || own.Some?)
            && (own.Some? ==> m.value.mode == if own.value.mode == "" then ENFORCE else own.value.mode)
            && (own.None? && global.Some? ==>
                  m.value.mode == if overridden && global.value.mode == "" then ENFORCE else global.value.mode)
  {
    EffectiveKeys(MergedEgress(global, overridden, own));
    if global.Some? && own.Some? {
      UnionKeys(global.value.allowed, own.value.allowed);
      UnionKeys(global.value.blocked, own.value.blocked);
    }
  }

  // ---- Policies as objects ----

  class EgressPolicy {
    var allowed: array<string>
    var blocked: array<string>
    var mode: string

    constructor (allowed: array<string>, blocked: array<string>, mode: string)
      ensures this.allowed == allowed && this.blocked == blocked && this.mode == mode
    {
      this.allowed, this.blocked, this.mode := allowed, blocked, mode;
    }

    ghost function Repr(): set<object>
      reads this
    {
      {this, allowed, blocked}
    }

    ghost function View(): Egress
      reads this, allowed, blocked
    {
      Egress(allowed[..], blocked[..], mode)
    }
  }

  class ModelDef {
    var provider: string
    var model: string
    var costIn: real
    var costOut: real

    constructor (provider: string, model: string, costIn: real, costOut: real)
      ensures View() == ModelValue(provider, model, costIn, costOut)
    {
      this.provider, this.model, this.costIn, this.costOut := provider, model, costIn, costOut;
    }

    ghost function View(): ModelValue
      reads this
    {
      ModelValue(provider, model, costIn, costOut)
    }
  }

  class CostLimits {
    var limits: Limits

    constructor (limits: Limits)
      ensures this.limits == limits
    {
      this.limits := limits;
    }
  }

  class TaskRule {
    var model: string

    constructor (model: string)
      ensures this.model == model
    {
      this.model := model;
    }
  }

  class RoutingPolicy {
    var defaultModel: string
    var models: map<string, ModelDef>
    var fallback: array<string>
    var costLimits: CostLimits?
    var taskRules: map<string, TaskRule>

    constructor (defaultModel: string, models: map<string, ModelDef>, fallback: array<string>,
                 costLimits: CostLimits?, taskRules: map<string, TaskRule>)
      ensures this.defaultModel == defaultModel && this.models == models && this.fallback == fallback
      ensures this.costLimits == costLimits && this.taskRules == taskRules
    {
      this.defaultModel, this.models, this.fallback := defaultModel, models, fallback;
      this.costLimits, this.taskRules := costLimits, taskRules;
    }

    ghost function Repr(): set<object>
      reads this
    {
      var own: set<object> := {this, fallback};
      var defs: set<object> := models.Values;
      var rules: set<object> := taskRules.Values;
      own + defs + rules + if costLimits == null then {} else {costLimits}
    }
  }

  class Posture {
    var isolation: string
    var backend: string
    var monitoring: string
    var frameworks: array<string>

    constructor (isolation: string, backend: string, monitoring: string, frameworks: array<string>)
      ensures this.isolation == isolation && this.backend == backend
      ensures this.monitoring == monitoring && this.frameworks == frameworks
    {
      this.isolation, this.backend, this.monitoring, this.frameworks := isolation, backend, monitoring, frameworks;
    }

    ghost function Repr(): set<object>
      reads this
    {
      {this, frameworks}
    }

    ghost function View(): PostureValue
      reads this, frameworks
    {
      PostureValue(isolation, backend, monitoring, frameworks[..])
    }
  }

  method CopyStrings(a: array<string>) returns (b: array<string>)
    ensures fresh(b) && b[..] == a[..]
  {
    b := new string[a.Length](i requires 0 <= i < a.Length reads a => a[i]);
    assert b[..] == a[..];
  }

  method CopyEgress(e: EgressPolicy?) returns (cp: EgressPolicy?)
    ensures cp == null <==> e == null
    ensures e != null ==> fresh(cp.Repr()) && cp.View() == e.View()
  {
    if e == null {
      return null;
    }
    var allowed := CopyStrings(e.allowed);
    var blocked := CopyStrings(e.blocked);
    cp := new EgressPolicy(allowed, blocked, e.mode);
  }

  ghost predicate SameModels(a: map<string, ModelDef>, b: map<string, ModelDef>)
    reads a.Values, b.Values
  {
    a.Keys == b.Keys && forall k :: k in a ==> a[k].View() == b[k].View()
  }

  method CopyModels(models: map<string, ModelDef>) returns (cp: map<string, ModelDef>)
    ensures fresh(cp.Values) && SameModels(cp, models)
  {
    cp := map[];
    var todo := models.Keys;
    while todo != {}
      invariant todo <= models.Keys && cp.Keys == models.Keys - todo
      invariant forall k :: k in cp ==> fresh(cp[k]) && cp[k].View() == models[k].View()
      decreases todo
    {
      var k :| k in todo;
      var m := models[k];
      var copy := new ModelDef(m.provider, m.model, m.costIn, m.costOut);
      cp := cp[k := copy];
      todo := todo - {k};
    }
  }

  ghost predicate SameRules(a: map<string, TaskRule>, b: map<string, TaskRule>)
    reads a.Values, b.Values
  {
    a.Keys == b.Keys && forall k :: k in a ==> a[k].model == b[k].model
  }

  method CopyRules(rules: map<string, TaskRule>) returns (cp: map<string, TaskRule>)
    ensures fresh(cp.Values) && SameRules(cp, rules)
  {
    cp := map[];
    var todo := rules.Keys;
    while todo != {}
      invariant todo <= rules.Keys && cp.Keys == rules.Keys - todo
      invariant forall k :: k in cp ==> fresh(cp[k]) && cp[k].model == rules[k].model
      decreases todo
    {
      var k :| k in todo;
      var copy := new TaskRule(rules[k].model);
      cp := cp[k := copy];
      todo := todo - {k};
    }
  }

  ghost predicate SameLimits(a: CostLimits?, b: CostLimits?)
    reads a, b
  {
    (a == null <==> b == null) && (a != null && b != null ==> a.limits == b.limits)
  }

  method CopyLimits(limits: CostLimits?) returns (cp: CostLimits?)
    ensures SameLimits(cp, limits) && (cp != null ==> fresh(cp))
  {
    cp := null;
    if limits != null {
      cp := new CostLimits(limits.limits);
    }
  }

  method CopyRouting(r: RoutingPolicy?) returns (cp: RoutingPolicy?)
    ensures cp == null <==> r == null
    ensures r != null ==> fresh(cp.Repr()) && SameRouting(cp, r)
  {
    if r == null {
      return null;
    }
    var models := CopyModels(r.models);
    var fallback := CopyStrings(r.fallback);
    var limits := CopyLimits(r.costLimits);
    var rules := CopyRules(r.taskRules);
    cp := new RoutingPolicy(r.defaultModel, models, fallback, limits, rules);
  }

  method CopyPosture(p: Posture?) returns (cp: Posture?)
    ensures cp == null <==> p == null
    ensures p != null ==> fresh(cp.Repr()) && cp.View() == p.View()
  {
    if p == null {
      return null;
    }
    var frameworks := CopyStrings(p.frameworks);
    cp := new Posture(p.isolation, p.backend, p.monitoring, frameworks);
  }

  /** Order-preserving case-insensitive union. With nothing to add the base list itself comes
      back, not a copy of it. */
  method UnionDomains(base: array<string>, extra: array<string>) returns (out: array<string>)
    ensures out[..] == Union(base[..], extra[..])
    ensures if extra.Length == 0 then out == base else fresh(out)
  {
    if extra.Length == 0 {
      return base;
    }
    var result: seq<string> := [];
    var seen: set<string> := {};
    for i := 0 to base.Length
      invariant seen == LowerSet(base[..i]) && result == FirstOfEach(base[..i])
    {
      result, seen := AppendNew(result, seen, base[..i], base[i]);
      assert base[..i + 1] == base[..i] + [base[i]];
    }
    assert base[..base.Length] == base[..];
    assert base[..] + extra[..0] == base[..];
    for i := 0 to extra.Length
      invariant seen == LowerSet(base[..] + extra[..i]) && result == FirstOfEach(base[..] + extra[..i])
    {
      result, seen := AppendNew(result, seen, base[..] + extra[..i], extra[i]);
      assert base[..] + extra[..i + 1] == base[..] + extra[..i] + [extra[i]];
    }
    assert extra[..extra.Length] == extra[..];
    out := new string[|result|](i requires 0 <= i < |result| => result[i]);
    assert out[..] == result;
  }

  method AppendNew(result: seq<string>, seen: set<string>, ghost done: seq<string>, d: string)
      returns (result': seq<string>, seen': set<string>)
    requires seen == LowerSet(done) && result == FirstOfEach(done)
    ensures seen' == LowerSet(done + [d]) && result' == FirstOfEach(done + [d])
  {
    var key := ToLower(d);
    assert (done + [d])[..|done|] == done;
    LowerSetConcat(done, [d]);
    assert LowerSet([d]) == {key};
    if key !in seen {
      return result + [d], seen + {key};
    }
    return result, seen;
  }

  ghost function EgressOf(e: EgressPolicy?): Option<Egress>
    reads e, if e == null then {} else e.Repr()
  {
    if e == null then None else Some(e.View())
  }

  ghost predicate SameRouting(a: RoutingPolicy, b: RoutingPolicy)
    reads a, b, a.Repr(), b.Repr()
  {
    && a.defaultModel == b.defaultModel && a.fallback[..] == b.fallback[..] && SameModels(a.models, b.models)
    && SameLimits(a.costLimits, b.costLimits) && SameRules(a.taskRules, b.taskRules)
  }

  ghost function PostureOf(p: Posture?): Option<PostureValue>
    reads p, if p == null then {} else p.Repr()
  {
    if p == null then None else Some(p.View())
  }

  /** Folds one agent's egress section into the copy of the global one. */
  method MergeEgress(base: EgressPolicy?, own: EgressPolicy) returns (e: EgressPolicy)
    requires base != own
    modifies if base == null then {} else {base}
    ensures base == null ==> fresh(e.Repr())
    ensures base != null ==>
              && e == base
              && (e.allowed == old(base.allowed) || fresh(e.allowed))
              && (e.blocked == old(base.blocked) || fresh(e.blocked))
    ensures EgressOf(e) == UnionEgress(old(EgressOf(base)), EgressOf(own))
  {
    if base == null {
      e := CopyEgress(own);
      return;
    }
    e := base;
    var allowed := UnionDomains(e.allowed, own.allowed);
    e.allowed := allowed;
    var blocked := UnionDomains(e.blocked, own.blocked);
    e.blocked := blocked;
    e.mode := own.mode;
  }

  class AgentOverride {
    var egress: EgressPolicy?
    var routing: RoutingPolicy?
    var posture: Posture?
  }

  class PolicyFile {
    var apiVersion: string
    var egress: EgressPolicy?
    var routing: RoutingPolicy?
    var posture: Posture?
    var agents: map<string, AgentOverride?>

    constructor (apiVersion: string, egress: EgressPolicy?, routing: RoutingPolicy?, posture: Posture?)
      ensures this.apiVersion == apiVersion && agents == map[]
      ensures this.egress == egress && this.routing == routing && this.posture == posture
    {
      this.apiVersion, this.egress, this.routing, this.posture, this.agents :=
        apiVersion, egress, routing, posture, map[];
    }

    /** Every egress section of the file, global or per agent. */
    ghost function EgressSections(): set<EgressPolicy>
      reads this, agents.Values
    {
      (if egress == null then {} else {egress})
      + (set k | k in agents && agents[k] != null && agents[k].egress != null :: agents[k].egress)
    }

    method NormalizeDefaults()
      modifies EgressSections()
      ensures forall e :: e in old(EgressSections()) ==>
                && e.mode == (if old(e.mode) == "" then ENFORCE else old(e.mode))
                && e.allowed == old(e.allowed) && e.blocked == old(e.blocked)
    {
      ghost var sections := EgressSections();
      if egress != null && egress.mode == "" {
        egress.mode := ENFORCE;
      }
      var todo := agents.Keys;
      while todo != {}
        invariant todo <= agents.Keys
        invariant forall e :: e in sections ==>
                    && (e.mode == old(e.mode) || (old(e.mode) == "" && e.mode == ENFORCE))
                    && e.allowed == old(e.allowed) && e.blocked == old(e.blocked)
        invariant egress != null ==> egress.mode != ""
        invariant forall k :: k in agents && k !in todo && agents[k] != null && agents[k].egress != null ==>
                    agents[k].egress.mode != ""
        decreases todo
      {
        var k :| k in todo;
        var o := agents[k];
        if o != null && o.egress != null && o.egress.mode == "" {
          o.egress.mode := ENFORCE;
        }
        todo := todo - {k};
      }
    }

    /** The effective policy of one agent: a new file, all of whose parts are new, holding the
        merged sections. Nothing of this file is written to. */
    method MergeForAgent(agent: string) returns (merged: PolicyFile)
      ensures fresh(merged) && merged.agents == map[] && merged.apiVersion == apiVersion
      ensures merged.egress != null ==> fresh(merged.egress.Repr())
      ensures merged.routing != null ==> fresh(merged.routing.Repr())
      ensures merged.posture != null ==> fresh(merged.posture.Repr())
      ensures agent !in agents || agents[agent] == null ==>
                && EgressOf(merged.egress) == EgressOf(egress)
                && (merged.routing == null <==> routing == null)
                && (routing != null ==> SameRouting(merged.routing, routing))
                && PostureOf(merged.posture) == PostureOf(posture)
      ensures agent in agents && agents[agent] != null ==>
                var o := agents[agent];
                && EgressOf(merged.egress) == MergedEgress(EgressOf(egress), true, EgressOf(o.egress))
                && (merged.routing == null <==> o.routing == null && routing == null)
                && (o.routing != null ==> SameRouting(merged.routing, o.routing))
                && (o.routing == null && routing != null ==> SameRouting(merged.routing, routing))
                && PostureOf(merged.posture) == PostureOf(if o.posture != null then o.posture else posture)
    {
      if agent !in agents || agents[agent] == null {
        var e := CopyEgress(egress);
        var r := CopyRouting(routing);
        var p := CopyPosture(posture);
        merged := new PolicyFile(apiVersion, e, r, p);
      } else {
        merged := MergeOverride(agents[agent]);
      }
    }

    method MergeOverride(own: AgentOverride) returns (merged: PolicyFile)
      ensures fresh(merged) && merged.agents == map[] && merged.apiVersion == apiVersion
      ensures merged.egress != null ==> fresh(merged.egress.Repr())
      ensures merged.routing != null ==> fresh(merged.routing.Repr())
      ensures merged.posture != null ==> fresh(merged.posture.Repr())
      ensures EgressOf(merged.egress) == MergedEgress(EgressOf(egress), true, EgressOf(own.egress))
      ensures merged.routing == null <==> own.routing == null && routing == null
      ensures own.routing != null ==> SameRouting(merged.routing, own.routing)
      ensures own.routing == null && routing != null ==> SameRouting(merged.routing, routing)
      ensures PostureOf(merged.posture) == PostureOf(if own.posture != null then own.posture else posture)
    {
      var normalized := MergeEgressOnly(own);
      var r := RoutingFor(routing, own.routing);
      var p := PostureFor(posture, own.posture);
      merged := new PolicyFile(apiVersion, normalized.egress, r, p);
    }

    /** A new file that holds the merged egress section alone, with its default filled in. */
    method MergeEgressOnly(own: AgentOverride) returns (merged: PolicyFile)
      ensures fresh(merged) && merged.agents == map[] && merged.apiVersion == apiVersion
      ensures merged.egress != null ==> fresh(merged.egress.Repr())
      ensures EgressOf(merged.egress) == MergedEgress(EgressOf(egress), true, EgressOf(own.egress))
    {
      var e := MergedEgressFor(egress, own.egress);
      merged := new PolicyFile(apiVersion, e, null, null);
      assert merged.EgressSections() == if e == null then {} else {e};
      merged.NormalizeDefaults();
    }
  }

  /** The agent's own section replaces the global one entirely. */
  method RoutingFor(global: RoutingPolicy?, own: RoutingPolicy?) returns (r: RoutingPolicy?)
    ensures r == null <==> own == null && global == null
    ensures r != null ==> fresh(r.Repr())
    ensures own != null ==> SameRouting(r, own)
    ensures own == null && global != null ==> SameRouting(r, global)
  {
    r := CopyRouting(global);
    if own != null {
      r := CopyRouting(own);
    }
  }

  method PostureFor(global: Posture?, own: Posture?) returns (p: Posture?)
    ensures p != null ==> fresh(p.Repr())
    ensures PostureOf(p) == PostureOf(if own != null then own else global)
  {
    p := CopyPosture(global);
    if own != null {
      p := CopyPosture(own);
    }
  }

  method MergedEgressFor(global: EgressPolicy?, own: EgressPolicy?) returns (e: EgressPolicy?)
    ensures e != null ==> fresh(e.Repr())
    ensures EgressOf(e) == UnionEgress(EgressOf(global), EgressOf(own))
  {
    e := CopyEgress(global);
    if own != null {
      e := MergeEgress(e, own);
    }
  }

  /** The domains an agent can reach. */
  method EffectiveAllowedDomains(e: EgressPolicy?) returns (result: seq<string>)
    ensures result == Effective(EgressOf(e))
  {
    if e == null || e.allowed.Length == 0 {
      return [];
    }
    var blocked: set<string> := {};
    for i := 0 to e.blocked.Length
      invariant blocked == LowerSet(e.blocked[..i])
    {
      assert e.blocked[..i + 1] == e.blocked[..i] + [e.blocked[i]];
      LowerSetConcat(e.blocked[..i], [e.blocked[i]]);
      assert LowerSet([e.blocked[i]]) == {ToLower(e.blocked[i])};
      blocked := blocked + {ToLower(e.blocked[i])};
    }
    assert e.blocked[..e.blocked.Length] == e.blocked[..];
    result := [];
    for i := 0 to e.allowed.Length
      invariant result == Unblocked(e.allowed[..i], blocked)
    {
      assert e.allowed[..i + 1][..i] == e.allowed[..i];
      if ToLower(e.allowed[i]) !in blocked {
        result := result + [e.allowed[i]];
      }
    }
    assert e.allowed[..e.allowed.Length] == e.allowed[..];
  }
}
