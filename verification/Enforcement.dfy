/** Egress enforcement: domain patterns, the exact/suffix split of the generated proxy filter
    (pkg/policy/egress.go), the filter itself (pkg/policy/templates/envoy-config.yaml.tmpl) and
    the pre-flight check that is to predict it (pkg/common/egress_check.go). */
module Enforcement {
  import opened Optional
  import opened Strings
  import opened Sequences
  import opened Policy
  import LuaText

  // ---- Patterns ----

  predicate IsWildcard(pattern: string) {
    HasPrefix(pattern, "*.")
  }

  predicate MatchDomain(pattern: string, domain: string) {
    var p, d := ToLower(pattern), ToLower(domain);
    if !IsWildcard(p) then p == d
    else HasSuffix(d, p[1..]) && d != p[1..][1..]
  }

  predicate DnsChar(c: char) {
    'a' <= c <= 'z' || 'A' <= c <= 'Z' || '0' <= c <= '9' || c == '-' || c == '.'
  }

  function CountStars(s: string): nat {
    if s == [] then 0 else (if s[0] == '*' then 1 else 0) + CountStars(s[1..])
  }

  function Cleaned(d: string): string {
    if IsWildcard(d) then d[2..] else d
  }

  predicate ValidDomain(d: string) {
    && d != ""
    && (forall i :: 0 <= i < |d| ==> d[i] != ' ' && d[i] != '\t' && d[i] != '\n')
    && ('*' in d ==> IsWildcard(d) && CountStars(d) <= 1)
    && forall i :: 0 <= i < |Cleaned(d)| ==> DnsChar(Cleaned(d)[i])
  }

  /** Letters, digits, hyphens and dots. */
  ghost predicate DnsText(s: string) {
    forall i :: 0 <= i < |s| ==> 'a' <= s[i] <= 'z' || 'A' <= s[i] <= 'Z' || '0' <= s[i] <= '9' || s[i] == '-' || s[i] == '.'
  }

  /** What passes is DNS text, not empty, with or without "*." before it; the checks for white
      space and for a second star rule out nothing more. */
  lemma ValidDomainIff(d: string)
    ensures ValidDomain(d) <==> d != "" && exists base :: (d == base || d == "*." + base) && DnsText(base)
  {
    var base := Cleaned(d);
    assert d == if IsWildcard(d) then "*." + base else base;
    forall b: string | (d == b || d == "*." + b) && DnsText(b)
      ensures b == base
    {
      assert IsWildcard(d) ==> d[0] == '*';
    }
    assert DnsText(base) <==> forall i :: 0 <= i < |base| ==> DnsChar(base[i]);
    if DnsText(base) {
      assert '*' !in base;
      NoStars("." + base);
      if IsWildcard(d) {
        assert d[1..] == "." + base && d[0] == '*';
        assert forall i :: 1 <= i < |d| ==> d[i] == ("." + base)[i - 1];
        assert '*' !in d[1..];
      }
    }
  }

  predicate ValidMode(mode: string) {
    mode == VALIDATE || mode == ENFORCE
  }

  /** The mode is one of the two and every domain is valid. */
  predicate ValidLists(e: Egress) {
    && ValidMode(e.mode)
    && (forall i :: 0 <= i < |e.allowed| ==> ValidDomain(e.allowed[i]))
    && (forall i :: 0 <= i < |e.blocked| ==> ValidDomain(e.blocked[i]))
  }

  /** What the validation of one section accepts: besides, no domain stands in both lists. */
  predicate ValidEgress(e: Egress) {
    ValidLists(e) && LowerSet(e.allowed) !! LowerSet(e.blocked)
  }

  /** What is left of validity in a merged section: one section may block what the other allows,
      which is how an agent narrows the global policy. */
  predicate Usable(e: Option<Egress>) {
    e.Some? ==> ValidLists(e.value)
  }

  /** Every section that a validated policy file holds or merges to is usable. */
  lemma MergedIsUsable(global: Option<Egress>, overridden: bool, own: Option<Egress>)
    requires Usable(global) && Usable(own)
    ensures Usable(MergedEgress(global, overridden, own))
  {
    if global.Some? && own.Some? {
      UnionIsValid(global.value.allowed, own.value.allowed);
      UnionIsValid(global.value.blocked, own.value.blocked);
    }
  }

  lemma UnionIsValid(base: seq<string>, extra: seq<string>)
    requires forall i :: 0 <= i < |base| ==> ValidDomain(base[i])
    requires forall i :: 0 <= i < |extra| ==> ValidDomain(extra[i])
    ensures forall i :: 0 <= i < |Union(base, extra)| ==> ValidDomain(Union(base, extra)[i])
  {
    FirstOfEachMembers(base + extra);
    var u := Union(base, extra);
    forall i | 0 <= i < |u|
      ensures ValidDomain(u[i])
    {
      assert u[i] in u;
      assert u[i] in base + extra;
    }
  }

  /** The validation of the two sections does not carry over to the merged one: it fails exactly
      when one of them blocks what the other allows. */
  lemma MergedIsValidIff(global: Egress, own: Egress)
    requires ValidEgress(global) && ValidEgress(own)
    ensures ValidEgress(MergedEgress(Some(global), true, Some(own)).value)
            <==> LowerSet(global.allowed) !! LowerSet(own.blocked) && LowerSet(own.allowed) !! LowerSet(global.blocked)
  {
    MergedIsUsable(Some(global), true, Some(own));
    UnionKeys(global.allowed, own.allowed);
    UnionKeys(global.blocked, own.blocked);
  }

  lemma ValidDomainChars(d: string)
    requires ValidDomain(d)
    ensures forall i :: 0 <= i < |d| ==> DnsChar(d[i]) || d[i] == '*'
    ensures TrimSpace(d) == d && '\r' !in ToLower(d)
  {
    var cleaned := Cleaned(d);
    forall i | 0 <= i < |d|
      ensures DnsChar(d[i]) || d[i] == '*'
    {
      if IsWildcard(d) && i >= 2 {
        assert d[i] == cleaned[i - 2];
      } else if IsWildcard(d) {
        assert d[..2] == "*.";
        assert d[i] == d[..2][i];
      }
    }
    TrimNoSpace(d);
  }

  // ---- The proxy filter ----

  /** The lower-cased base of a wildcard, without its "*.". */
  function Base(pattern: string): string
    requires IsWildcard(ToLower(pattern))
  {
    ToLower(pattern)[2..]
  }

  function ExactOf(domains: seq<string>): seq<string> {
    if domains == [] then []
    else
      var init, last := ExactOf(domains[..|domains| - 1]), domains[|domains| - 1];
      if IsWildcard(ToLower(last)) then init else init + [ToLower(last)]
  }

  function BasesOf(domains: seq<string>): seq<string> {
    if domains == [] then []
    else
      var init, last := BasesOf(domains[..|domains| - 1]), domains[|domains| - 1];
      if IsWildcard(ToLower(last)) then init + [Base(last)] else init
  }

  function Escaped(s: seq<string>): seq<string> {
    seq(|s|, i requires 0 <= i < |s| => LuaText.LuaEscape(s[i]))
  }

  /** What the template is filled with: lower-cased, split and escaped. */
  method SplitDomains(domains: seq<string>) returns (exact: seq<string>, suffixes: seq<string>)
    ensures exact == Escaped(ExactOf(domains)) && suffixes == Escaped(BasesOf(domains))
  {
    exact, suffixes := [], [];
    for i := 0 to |domains|
      invariant exact == Escaped(ExactOf(domains[..i])) && suffixes == Escaped(BasesOf(domains[..i]))
    {
      assert domains[..i + 1][..i] == domains[..i];
      var d := ToLower(domains[i]);
      if IsWildcard(d) {
        suffixes := suffixes + [LuaText.LuaEscape(d[2..])];
      } else {
        exact := exact + [LuaText.LuaEscape(d)];
      }
    }
    assert domains[..|domains|] == domains;
  }

  lemma {:induction false} SplitMembers(domains: seq<string>)
    ensures forall h :: h in ExactOf(domains) <==> h in LowerSet(domains) && !IsWildcard(h)
    ensures forall b :: b in BasesOf(domains) <==> "*." + b in LowerSet(domains)
  {
    if domains != [] {
      var init, last := domains[..|domains| - 1], domains[|domains| - 1];
      SplitMembers(init);
      assert domains == init + [last];
      LowerSetConcat(init, [last]);
      assert LowerSet([last]) == {ToLower(last)};
      forall b
        ensures b in BasesOf(domains) <==> "*." + b in LowerSet(domains)
      {
        assert ("*." + b)[2..] == b;
        if IsWildcard(ToLower(last)) {
          assert ToLower(last) == "*." + Base(last);
          assert ("*." + b == "*." + Base(last)) <==> b == Base(last);
        } else {
          assert IsWildcard("*." + b);
        }
      }
    }
  }

  /** The strings the Lua tables hold once the generated literals are read; None when one of
      them does not read, in which case the filter does not load. */
  function ReadTable(prefix: string, texts: seq<string>): Option<seq<string>> {
    if texts == [] then Some([])
    else
      var head := LuaText.ReadLiteral("\"" + prefix + texts[0] + "\"");
      var tail := ReadTable(prefix, texts[1..]);
      if head.None? || tail.None? then None else Some([head.value] + tail.value)
  }

  function Dotted(bases: seq<string>): seq<string> {
    seq(|bases|, i requires 0 <= i < |bases| => "." + bases[i])
  }

  /** A dot needs no escaping, so the prefix of the suffix table goes through unchanged. */
  lemma EscapeWithDot(s: string)
    ensures "\"." + LuaText.LuaEscape(s) + "\"" == LuaText.Quoted("." + s)
  {
    LuaText.PassesAreOneMap(s);
    LuaText.PassesAreOneMap("." + s);
    assert ("." + s)[1..] == s;
  }

  lemma HeadReads(s: string)
    requires '\r' !in s
    ensures LuaText.ReadLiteral("\"" + "" + LuaText.LuaEscape(s) + "\"") == Some(s)
    ensures LuaText.ReadLiteral("\"" + "." + LuaText.LuaEscape(s) + "\"") == Some("." + s)
  {
    LuaText.LuaRoundTrip(s);
    LuaText.LuaRoundTrip("." + s);
    EscapeWithDot(s);
    assert "\"" + "" + LuaText.LuaEscape(s) + "\"" == LuaText.Quoted(s);
    assert "\"" + "." + LuaText.LuaEscape(s) + "\"" == "\"." + LuaText.LuaEscape(s) + "\"";
  }

  lemma {:induction false} TablesReadBack(s: seq<string>)
    requires forall i :: 0 <= i < |s| ==> '\r' !in s[i]
    ensures ReadTable("", Escaped(s)) == Some(s)
    ensures ReadTable(".", Escaped(s)) == Some(Dotted(s))
  {
    if s != [] {
      TablesReadBack(s[1..]);
      assert Escaped(s)[1..] == Escaped(s[1..]);
      HeadReads(s[0]);
      assert Dotted(s) == ["." + s[0]] + Dotted(s[1..]);
      assert s == [s[0]] + s[1..];
    }
  }

  /** The part of an authority before its port: everything up to the first colon. */
  function BeforeColon(a: string): string {
    if a == [] || a[0] == ':' then "" else [a[0]] + BeforeColon(a[1..])
  }

  lemma {:induction false} BeforeColonOfHost(host: string, port: string)
    requires ':' !in host
    ensures BeforeColon(host) == host && BeforeColon(host + ":" + port) == host
  {
    if host != [] {
      BeforeColonOfHost(host[1..], port);
      assert (host + ":" + port)[1..] == host[1..] + ":" + port;
      assert host == [host[0]] + host[1..];
    }
  }

  /** The filter's decision in enforce mode: the authority's host is in the exact table, or it
      equals a suffix without its dot, or it ends in a suffix. */
  predicate FilterAllows(exact: seq<string>, suffixes: seq<string>, authority: string) {
    var m := BeforeColon(authority);
    && m != ""
    && var host := ToLower(m);
       || host in exact
       || exists i :: 0 <= i < |suffixes| && suffixes[i] != "" &&
                      (host == suffixes[i][1..] || HasSuffix(host, suffixes[i]))
  }

  // ---- The pre-flight check ----

  predicate MatchAllowlistEntry(pattern: string, hostLower: string) {
    var p := ToLower(pattern);
    if !IsWildcard(p) then p == hostLower
    else HasSuffix(hostLower, p[1..]) && hostLower != p[1..][1..]
  }

  method HostMatchesAllowlist(host: string, allowlist: seq<string>) returns (r: bool)
    ensures r <==> Covered(host, allowlist)
  {
    var hostLower := ToLower(host);
    ToLowerIdempotent(host);
    for i := 0 to |allowlist|
      invariant forall j :: 0 <= j < i ==> !MatchDomain(allowlist[j], host)
    {
      if MatchAllowlistEntry(allowlist[i], hostLower) {
        assert MatchDomain(allowlist[i], host);
        return true;
      }
    }
    r := false;
  }

  /** Some pattern of the list matches the host. */
  predicate Covered(host: string, allowlist: seq<string>) {
    exists i :: 0 <= i < |allowlist| && MatchDomain(allowlist[i], host)
  }

  function Uncovered(hosts: seq<string>, allowlist: seq<string>): seq<string> {
    if hosts == [] then []
    else
      var init, last := Uncovered(hosts[..|hosts| - 1], allowlist), hosts[|hosts| - 1];
      if Covered(last, allowlist) then init else init + [last]
  }

  /** `missing` reports the hosts that the list does not cover, each once up to case, as and in
      the order first mentioned. */
  ghost predicate Reports(hosts: seq<string>, allowlist: seq<string>, missing: seq<string>) {
    missing == FirstOfEach(Uncovered(hosts, allowlist))
  }

  /** What is uncovered stands in the order it was mentioned, as it was written. */
  lemma {:induction false} UncoveredPicks(hosts: seq<string>, allowlist: seq<string>) returns (at: seq<nat>)
    ensures Picks(hosts, Uncovered(hosts, allowlist), at, (before: seq<string>, h: string) => !Covered(h, allowlist))
  {
    at := [];
    if hosts != [] {
      var init, last := hosts[..|hosts| - 1], hosts[|hosts| - 1];
      at := UncoveredPicks(init, allowlist);
      at := PicksSnoc(init, Uncovered(init, allowlist), at, (before: seq<string>, h: string) => !Covered(h, allowlist), last);
      assert init + [last] == hosts;
    }
  }

  lemma {:induction false} UncoveredKeys(hosts: seq<string>, allowlist: seq<string>, h: string)
    ensures ToLower(h) in LowerSet(Uncovered(hosts, allowlist)) <==> ToLower(h) in LowerSet(hosts) && !Covered(h, allowlist)
  {
    if hosts != [] {
      var init, last := hosts[..|hosts| - 1], hosts[|hosts| - 1];
      UncoveredKeys(init, allowlist, h);
      assert hosts == init + [last];
      LowerSetConcat(init, [last]);
      LowerSetConcat(Uncovered(init, allowlist), [last]);
      assert LowerSet([last]) == {ToLower(last)};
      if ToLower(last) == ToLower(h) {
        CoveredUpToCase(last, h, allowlist);
      }
    }
  }

  /** One more host is reported if it is uncovered and no host before it was the same. */
  lemma ReportsOneMore(hosts: seq<string>, allowlist: seq<string>, missing: seq<string>, h: string)
    requires Reports(hosts, allowlist, missing)
    ensures Reports(hosts + [h], allowlist,
                    if ToLower(h) in LowerSet(hosts) || Covered(h, allowlist) then missing else missing + [h])
  {
    var un := Uncovered(hosts, allowlist);
    UncoveredKeys(hosts, allowlist, h);
    assert (hosts + [h])[..|hosts|] == hosts;
    assert (un + [h])[..|un|] == un;
  }

  lemma CoveredUpToCase(a: string, b: string, allowlist: seq<string>)
    requires ToLower(a) == ToLower(b)
    ensures Covered(a, allowlist) <==> Covered(b, allowlist)
  {
    forall i | 0 <= i < |allowlist|
      ensures MatchDomain(allowlist[i], a) <==> MatchDomain(allowlist[i], b)
    {
    }
  }

  /** The state of a check after some hosts: which have been seen, and the report so far. */
  ghost predicate SoFar(hosts: seq<string>, allowlist: seq<string>, seen: set<string>, missing: seq<string>) {
    && seen == LowerSet(hosts)
    && forall un :: un == Uncovered(hosts, allowlist) ==> missing == FirstOfEach(un)
  }

  method CheckOne(h: string, allowlist: seq<string>, seen: set<string>, missing: seq<string>, ghost hosts: seq<string>)
      returns (seen': set<string>, missing': seq<string>)
    requires SoFar(hosts, allowlist, seen, missing)
    ensures SoFar(hosts + [h], allowlist, seen', missing')
    ensures missing <= missing' <= missing + [h]
  {
    var lower := ToLower(h);
    LowerSetConcat(hosts, [h]);
    assert LowerSet([h]) == {lower};
    seen', missing' := seen + {lower}, missing;
    ReportsOneMore(hosts, allowlist, missing, h);
    if lower in seen {
      return;
    }
    var ok := HostMatchesAllowlist(h, allowlist);
    if !ok {
      missing' := missing + [h];
    }
  }

  /** The overlay's endpoints as the caller's URL parser gives them: "" for none. */
  datatype Overlay = NoOverlay | Overlay(model: Option<string>, subagent: Option<string>)

  function DeclaredHosts(o: Overlay): seq<string> {
    if o.NoOverlay? then []
    else (if o.model.Some? && o.model.value != "" then [o.model.value] else [])
         + (if o.subagent.Some? && o.subagent.value != "" then [o.subagent.value] else [])
  }

  /** Both endpoints are looked at, the model's first; an endpoint without a host is not. */
  lemma DeclaredMeaning(o: Overlay)
    ensures forall h :: h in DeclaredHosts(o) <==> h != "" && o.Overlay? && (o.model == Some(h) || o.subagent == Some(h))
    ensures o.Overlay? && o.model.Some? && o.model.value != "" ==> DeclaredHosts(o)[0] == o.model.value
  {
  }

  method CheckOverlayEgress(overlay: Overlay, allowlist: seq<string>) returns (missing: seq<string>)
    ensures Reports(DeclaredHosts(overlay), allowlist, missing)
  {
    missing := [];
    if overlay.NoOverlay? {
      return;
    }
    var hosts: seq<string> := [];
    if overlay.model.Some? && overlay.model.value != "" {
      hosts := hosts + [overlay.model.value];
    }
    if overlay.subagent.Some? && overlay.subagent.value != "" {
      hosts := hosts + [overlay.subagent.value];
    }
    assert hosts == DeclaredHosts(overlay);
    var seen: set<string> := {};
    ghost var sofar: seq<string> := [];
    for i := 0 to |hosts|
      invariant sofar == hosts[..i] && SoFar(sofar, allowlist, seen, missing)
    {
      seen, missing := CheckOne(hosts[i], allowlist, seen, missing, sofar);
      sofar := sofar + [hosts[i]];
    }
    assert sofar == hosts;
  }

  /** The custom-config layers, each a list of the hosts its MCP servers declare. */
  function AllHosts(layers: seq<seq<string>>): seq<string> {
    if layers == [] then [] else AllHosts(layers[..|layers| - 1]) + layers[|layers| - 1]
  }

  lemma {:induction false} AllHostsMembers(layers: seq<seq<string>>)
    ensures forall h :: h in AllHosts(layers) <==> exists i :: 0 <= i < |layers| && h in layers[i]
  {
    if layers != [] {
      AllHostsMembers(layers[..|layers| - 1]);
      assert forall i :: 0 <= i < |layers| - 1 ==> layers[..|layers| - 1][i] == layers[i];
    }
  }

  /** One seen-set and one report run across all layers. */
  method CheckCustomConfigEgress(layers: seq<seq<string>>, allowlist: seq<string>) returns (missing: seq<string>)
    ensures Reports(AllHosts(layers), allowlist, missing)
  {
    missing := [];
    var seen: set<string> := {};
    for i := 0 to |layers|
      invariant SoFar(AllHosts(layers[..i]), allowlist, seen, missing)
    {
      assert layers[..i + 1][..i] == layers[..i];
      seen, missing := CheckLayer(layers[i], allowlist, seen, missing, AllHosts(layers[..i]));
    }
    assert layers[..|layers|] == layers;
  }

  method CheckLayer(hosts: seq<string>, allowlist: seq<string>, seen: set<string>, missing: seq<string>, ghost done: seq<string>)
      returns (seen': set<string>, missing': seq<string>)
    requires SoFar(done, allowlist, seen, missing)
    ensures SoFar(done + hosts, allowlist, seen', missing')
  {
    seen', missing' := seen, missing;
    ghost var sofar := done;
    for j := 0 to |hosts|
      invariant sofar == done + hosts[..j] && SoFar(sofar, allowlist, seen', missing')
    {
      seen', missing' := CheckOne(hosts[j], allowlist, seen', missing', sofar);
      sofar := sofar + [hosts[j]];
    }
    assert sofar == done + hosts;
  }

  // ---- Pre-flight against enforcement ----

  lemma CoveredIsSplit(host: string, domains: seq<string>, i: int)
    requires 0 <= i < |domains| && MatchDomain(domains[i], host)
    ensures var h := ToLower(host);
            h in ExactOf(domains) || exists b :: b in BasesOf(domains) && HasSuffix(h, "." + b)
  {
    SplitMembers(domains);
    var p := ToLower(domains[i]);
    assert p in LowerSet(domains);
    if IsWildcard(p) {
      WildcardParts(p);
      assert p[2..] in BasesOf(domains);
    }
  }

  lemma WildcardParts(p: string)
    requires IsWildcard(p)
    ensures p == "*." + p[2..] && p[1..] == "." + p[2..]
  {
  }

  lemma BaseCovers(host: string, domains: seq<string>, b: string)
    requires b in BasesOf(domains) && HasSuffix(ToLower(host), "." + b)
    ensures Covered(host, domains)
  {
    SplitMembers(domains);
    var i :| 0 <= i < |domains| && ToLower(domains[i]) == "*." + b;
    assert ("*." + b)[1..] == "." + b;
    assert ("." + b)[1..] == b;
    assert MatchDomain(domains[i], host);
  }

  /** The split loses nothing: a host is covered exactly when its lower-cased form is in the
      exact list or ends in a dot and one of the bases. */
  lemma SplitAgrees(host: string, domains: seq<string>)
    ensures Covered(host, domains) <==>
            var h := ToLower(host);
            h in ExactOf(domains) || exists b :: b in BasesOf(domains) && HasSuffix(h, "." + b)
  {
    var h := ToLower(host);
    if i :| 0 <= i < |domains| && MatchDomain(domains[i], host) {
      CoveredIsSplit(host, domains, i);
    }
    if h in ExactOf(domains) {
      SplitMembers(domains);
      var i :| 0 <= i < |domains| && ToLower(domains[i]) == h;
      assert MatchDomain(domains[i], host);
    }
    if b :| b in BasesOf(domains) && HasSuffix(h, "." + b) {
      BaseCovers(host, domains, b);
    }
  }

  lemma {:induction false} SplitChars(domains: seq<string>)
    requires forall i :: 0 <= i < |domains| ==> '\r' !in ToLower(domains[i])
    ensures forall i :: 0 <= i < |ExactOf(domains)| ==> '\r' !in ExactOf(domains)[i]
    ensures forall i :: 0 <= i < |BasesOf(domains)| ==> '\r' !in BasesOf(domains)[i]
  {
    if domains != [] {
      SplitChars(domains[..|domains| - 1]);
    }
  }

  /** The tables of the filter generated for a list of domains. */
  function FilterTables(domains: seq<string>): (Option<seq<string>>, Option<seq<string>>) {
    (ReadTable("", Escaped(ExactOf(domains))), ReadTable(".", Escaped(BasesOf(domains))))
  }

  /** The authority a client sends for a host: an address with colons goes in brackets. */
  function Authority(host: string, port: string): string {
    if ':' in host then "[" + host + "]:" + port else host + ":" + port
  }

  /** What the filter takes for the host: what stands before the authority's first colon. */
  function SeenHost(host: string): string {
    if ':' in host then "[" + BeforeColon(host) else host
  }

  lemma {:induction false} BeforeFirstColon(s: string)
    requires ':' in s
    ensures var k := |BeforeColon(s)|; k < |s| && s[..k] == BeforeColon(s) && s[k] == ':' && ':' !in s[..k]
  {
    if s[0] != ':' {
      assert s == [s[0]] + s[1..];
      BeforeFirstColon(s[1..]);
      var k := |BeforeColon(s)|;
      assert s[..k] == [s[0]] + s[1..][..k - 1];
    }
  }

  lemma SeenInAuthority(host: string, port: string) returns (rest: string)
    ensures ':' !in SeenHost(host) && Authority(host, port) == SeenHost(host) + ":" + rest
  {
    rest := port;
    if ':' in host {
      BeforeFirstColon(host);
      var k := |BeforeColon(host)|;
      rest := host[k + 1..] + "]:" + port;
      CutAtColon("[", host, k, "]:", port);
    }
  }

  lemma CutAtColon(before: string, host: string, k: nat, mid: string, port: string)
    requires k < |host| && host[k] == ':'
    ensures before + host + mid + port == before + host[..k] + ":" + (host[k + 1..] + mid + port)
  {
    assert host == host[..k] + ":" + host[k + 1..];
  }

  /** What the generated filter lets through: what it takes for the host is covered, or is itself
      the base of an allowed wildcard. */
  lemma FilterDecides(host: string, port: string, domains: seq<string>)
    requires host != ""
    requires forall i :: 0 <= i < |domains| ==> '\r' !in ToLower(domains[i])
    ensures var (exact, suffixes) := FilterTables(domains);
            && exact.Some? && suffixes.Some?
            && (FilterAllows(exact.value, suffixes.value, Authority(host, port)) <==>
                  Covered(SeenHost(host), domains) || ToLower(SeenHost(host)) in BasesOf(domains))
            && (':' !in host ==> (FilterAllows(exact.value, suffixes.value, host) <==>
                                    FilterAllows(exact.value, suffixes.value, Authority(host, port))))
  {
    var rest := SeenInAuthority(host, port);
    FilterReads(SeenHost(host), rest, domains);
  }

  lemma FilterReads(host: string, port: string, domains: seq<string>)
    requires host != "" && ':' !in host
    requires forall i :: 0 <= i < |domains| ==> '\r' !in ToLower(domains[i])
    ensures var (exact, suffixes) := FilterTables(domains);
            && exact.Some? && suffixes.Some?
            && (FilterAllows(exact.value, suffixes.value, host) <==>
                  Covered(host, domains) || ToLower(host) in BasesOf(domains))
            && (FilterAllows(exact.value, suffixes.value, host + ":" + port) <==>
                  FilterAllows(exact.value, suffixes.value, host))
  {
    SplitChars(domains);
    TablesReadBack(ExactOf(domains));
    TablesReadBack(BasesOf(domains));
    BeforeColonOfHost(host, port);
    SplitAgrees(host, domains);
    DottedAccepts(ToLower(host), BasesOf(domains));
  }

  /** The suffix test of the template, on the dotted bases. */
  lemma DottedAccepts(h: string, bases: seq<string>)
    ensures (exists i :: 0 <= i < |bases| && (h == Dotted(bases)[i][1..] || HasSuffix(h, Dotted(bases)[i])))
            <==> h in bases || exists b :: b in bases && HasSuffix(h, "." + b)
  {
    var suffixes := Dotted(bases);
    forall i | 0 <= i < |bases|
      ensures suffixes[i] == "." + bases[i] && suffixes[i][1..] == bases[i]
    {
    }
    if h in bases {
      var i :| 0 <= i < |bases| && bases[i] == h;
      assert h == suffixes[i][1..];
    }
    if b :| b in bases && HasSuffix(h, "." + b) {
      var i :| 0 <= i < |bases| && bases[i] == b;
      assert HasSuffix(h, suffixes[i]);
    }
  }

  /** A wildcard covers the part of an address before its first colon. */
  ghost predicate FrontCovered(host: string, domains: seq<string>) {
    exists b :: b in BasesOf(domains) && HasSuffix(ToLower(BeforeColon(host)), "." + b)
  }

  /** How the pre-flight check and the filter generated from a section compare on a host. On a
      name they agree unless it is the bare base of an allowed wildcard that nothing else covers:
      then the check reports a gap and the filter lets the host through. Of an address in brackets
      the filter sees the front only, so an IPv6 literal never passes, and there they agree unless
      a wildcard covers the text of the address. */
  ghost predicate Comparison(host: string, port: string, e: Option<Egress>) {
    var domains := Effective(e);
    var (exact, suffixes) := FilterTables(domains);
    && exact.Some? && suffixes.Some?
    && var allowed := FilterAllows(exact.value, suffixes.value, Authority(host, port));
       && (':' !in host ==>
             (allowed == Covered(host, domains) <==> (ToLower(host) in BasesOf(domains) ==> Covered(host, domains))))
       && (':' in host ==> (allowed <==> FrontCovered(host, domains)))
       && (':' in host && '.' !in BeforeColon(host) ==>
             !allowed && (allowed == Covered(host, domains) <==> !Covered(host, domains)))
  }

  /** The comparison holds for every host and every section of valid lists. */
  lemma PreflightAgreesIff(host: string, port: string, e: Option<Egress>)
    requires host != "" && Usable(e)
    ensures Comparison(host, port, e)
  {
    var domains := Effective(e);
    EffectiveIsValid(e);
    FilterDecides(host, port, domains);
    if ':' in host {
      BracketedFront(host, domains);
    }
  }

  /** And so for what an agent is given: the merge of the global section and its own, whatever
      either blocks of the other. */
  lemma MergedPreflightAgreesIff(host: string, port: string, global: Option<Egress>, overridden: bool, own: Option<Egress>)
    requires host != "" && Usable(global) && Usable(own)
    ensures Comparison(host, port, MergedEgress(global, overridden, own))
  {
    MergedIsUsable(global, overridden, own);
    PreflightAgreesIff(host, port, MergedEgress(global, overridden, own));
  }

  /** A set of lower-cased patterns admits a lower-cased name: as an entry, as the base of a
      wildcard, or below one. */
  ghost predicate KeysAdmit(keys: set<string>, h: string) {
    || (h in keys && !IsWildcard(h))
    || exists b: string :: "*." + b in keys && (h == b || HasSuffix(h, "." + b))
  }

  /** From the policy file to the wire: the filter generated for an agent lets a host through if
      and only if the patterns that the global policy or the agent's own allows, less those that
      either blocks, admit what the filter takes for the host. */
  lemma FilterOfMerge(host: string, port: string, global: Option<Egress>, overridden: bool, own: Option<Egress>)
    requires host != "" && Usable(global) && Usable(own) && (!overridden ==> own.None?)
    ensures var (exact, suffixes) := FilterTables(Effective(MergedEgress(global, overridden, own)));
            && exact.Some? && suffixes.Some?
            && (FilterAllows(exact.value, suffixes.value, Authority(host, port)) <==>
                  KeysAdmit((AllowedKeys(global) + AllowedKeys(own)) - (BlockedKeys(global) + BlockedKeys(own)), ToLower(SeenHost(host))))
  {
    var e := MergedEgress(global, overridden, own);
    MergedIsUsable(global, overridden, own);
    MergeMeaning(global, overridden, own);
    EffectiveIsValid(e);
    FilterDecides(host, port, Effective(e));
    CoveredByKeysIff(SeenHost(host), Effective(e));
  }

  lemma CoveredByKeysIff(host: string, domains: seq<string>)
    ensures Covered(host, domains) || ToLower(host) in BasesOf(domains) <==> KeysAdmit(LowerSet(domains), ToLower(host))
  {
    var h, keys := ToLower(host), LowerSet(domains);
    SplitAgrees(host, domains);
    SplitMembers(domains);
    if b :| b in BasesOf(domains) && HasSuffix(h, "." + b) {
      assert "*." + b in keys;
    }
    if h in BasesOf(domains) {
      assert "*." + h in keys;
    }
    if b: string :| "*." + b in keys && (h == b || HasSuffix(h, "." + b)) {
      assert b in BasesOf(domains);
    }
  }

  /** No valid domain starts with a bracket, so only a wildcard can cover a bracketed front, and
      without a dot none does. */
  lemma BracketedFront(host: string, domains: seq<string>)
    requires ':' in host && forall d :: d in domains ==> ValidDomain(d)
    ensures ToLower(SeenHost(host)) !in BasesOf(domains)
    ensures Covered(SeenHost(host), domains) <==> FrontCovered(host, domains)
    ensures '.' !in BeforeColon(host) ==> !FrontCovered(host, domains)
  {
    var front, h := BeforeColon(host), ToLower(SeenHost(host));
    assert SeenHost(host)[0] == '[' && SeenHost(host)[1..] == front;
    assert h == ['['] + ToLower(front);
    BracketIsNoDomain(h, domains);
    SplitAgrees(SeenHost(host), domains);
    forall b
      ensures HasSuffix(h, "." + b) <==> HasSuffix(ToLower(front), "." + b)
      ensures '.' !in front ==> !HasSuffix(ToLower(front), "." + b)
    {
      assert ("." + b)[0] == '.';
      InFrontOfSuffix('[', ToLower(front), "." + b);
      if '.' !in front {
        NoDotNoSuffix(front, "." + b);
      }
    }
  }

  /** A character in front does not make a suffix that starts with another one. */
  lemma InFrontOfSuffix(c: char, s: string, q: string)
    requires q != "" && q[0] != c
    ensures HasSuffix([c] + s, q) <==> HasSuffix(s, q)
  {
    var t := [c] + s;
    if |q| <= |s| {
      assert t[|t| - |q|..] == s[|s| - |q|..];
    } else {
      assert |q| == |t| ==> t[0] != q[0];
    }
  }

  lemma BracketIsNoDomain(h: string, domains: seq<string>)
    requires h != "" && h[0] == '[' && forall d :: d in domains ==> ValidDomain(d)
    ensures h !in BasesOf(domains) && h !in ExactOf(domains)
  {
    forall i | 0 <= i < |domains|
      ensures ToLower(domains[i]) != h && ToLower(domains[i]) != "*." + h
    {
      assert domains[i] in domains;
      ValidDomainChars(domains[i]);
      var p := ToLower(domains[i]);
      assert |p| > 0 && p[0] == LowerChar(domains[i][0]);
      assert ("*." + h)[2] == '[';
      assert |p| > 2 ==> p[2] == LowerChar(domains[i][2]);
    }
    SplitMembers(domains);
  }

  lemma NoDotNoSuffix(s: string, q: string)
    requires '.' !in s && q != "" && q[0] == '.'
    ensures !HasSuffix(ToLower(s), q)
  {
    var low := ToLower(s);
    assert forall i :: 0 <= i < |s| ==> s[i] in s && low[i] != '.';
    assert |q| <= |low| ==> low[|low| - |q|..][0] == low[|low| - |q|];
  }

  lemma EffectiveIsValid(e: Option<Egress>)
    requires Usable(e)
    ensures forall d :: d in Effective(e) ==> ValidDomain(d)
    ensures forall i :: 0 <= i < |Effective(e)| ==> '\r' !in ToLower(Effective(e)[i])
  {
    if e.Some? {
      UnblockedMembers(e.value.allowed, LowerSet(e.value.blocked));
    }
    var ds := Effective(e);
    forall i | 0 <= i < |ds|
      ensures ValidDomain(ds[i]) && '\r' !in ToLower(ds[i])
    {
      assert ds[i] in e.value.allowed;
      ValidDomainChars(ds[i]);
    }
  }

  /** Documentation and pre-flight say that a wildcard does not cover its own base; for every
      base domain the filter generated from that one wildcard lets the base through. */
  lemma BareHostPassesFilter(base: string)
    requires ValidDomain(base) && '*' !in base
    ensures var e := Egress(["*." + base], [], ENFORCE);
            var domains := Effective(Some(e));
            var (exact, suffixes) := FilterTables(domains);
            && ValidEgress(e) && domains == e.allowed
            && !Covered(base, domains)
            && exact.Some? && suffixes.Some?
            && FilterAllows(exact.value, suffixes.value, base)
  {
    WildcardPolicy(base);
    SingleEffective("*." + base);
    BareBase(base);
    FilterDecides(base, "443", ["*." + base]);
  }

  /** An address whose text a wildcard covers, like ::ffff:10.0.0.1 under *.0.0.1: pre-flight has
      nothing to report and the filter denies it. */
  lemma CoveredAddressIsDenied(front: string, port: string, base: string)
    requires ValidDomain(base) && '*' !in base && ':' in front && '.' !in BeforeColon(front)
    ensures var e := Egress(["*." + base], [], ENFORCE);
            ValidEgress(e) && Covered(front + "." + base, Effective(Some(e))) && Denied(front + "." + base, port, e)
  {
    WildcardPolicy(base);
    SingleEffective("*." + base);
    SuffixCovered(front, base);
    FrontStays(front, base);
    AddressIsDenied(front + "." + base, port, Egress(["*." + base], [], ENFORCE));
  }

  lemma FrontStays(front: string, base: string)
    requires ':' in front && '.' !in BeforeColon(front)
    ensures ':' in front + "." + base && '.' !in BeforeColon(front + "." + base)
  {
    FrontOfConcat(front, "." + base);
    assert front + "." + base == front + ("." + base);
  }

  /** The filter generated for a policy does not let the host through. */
  ghost predicate Denied(host: string, port: string, e: Egress) {
    var (exact, suffixes) := FilterTables(Effective(Some(e)));
    exact.Some? && suffixes.Some? && !FilterAllows(exact.value, suffixes.value, Authority(host, port))
  }

  lemma AddressIsDenied(host: string, port: string, e: Egress)
    requires ValidLists(e) && ':' in host && '.' !in BeforeColon(host)
    ensures Denied(host, port, e)
  {
    PreflightAgreesIff(host, port, Some(e));
  }

  lemma {:induction false} FrontOfConcat(a: string, b: string)
    requires ':' in a
    ensures ':' in a + b && BeforeColon(a + b) == BeforeColon(a)
  {
    assert a[0] in a + b;
    if a[0] != ':' {
      assert a == [a[0]] + a[1..];
      assert (a + b)[1..] == a[1..] + b;
      FrontOfConcat(a[1..], b);
      assert a + b == [a[0]] + (a[1..] + b);
    }
  }

  lemma SuffixCovered(front: string, base: string)
    requires ValidDomain(base) && '*' !in base
    ensures Covered(front + "." + base, ["*." + base])
  {
    WildcardOf(base);
    OneBase("*." + base, ToLower(base));
    LowerSuffix(front, '.', base);
    assert front + ['.'] + base == front + "." + base;
    assert ['.'] + ToLower(base) == "." + ToLower(base);
    BaseCovers(front + "." + base, ["*." + base], ToLower(base));
  }

  lemma LowerSuffix(front: string, c: char, tail: string)
    requires LowerChar(c) == c
    ensures HasSuffix(ToLower(front + [c] + tail), [c] + ToLower(tail))
  {
    var s := front + [c] + tail;
    var low, q := ToLower(s), [c] + ToLower(tail);
    forall i | 0 <= i < |q|
      ensures low[|front| + i] == q[i]
    {
      assert s[|front| + i] == if i == 0 then c else tail[i - 1];
    }
    assert low[|low| - |q|..] == q;
  }

  lemma WildcardPolicy(base: string)
    requires ValidDomain(base) && '*' !in base
    ensures ValidEgress(Egress(["*." + base], [], ENFORCE))
  {
    WildcardOf(base);
    var none: seq<string> := [];
    assert LowerSet(none) == {};
  }

  lemma BareBase(base: string)
    requires ValidDomain(base) && '*' !in base
    ensures ToLower(base) in BasesOf(["*." + base]) && !Covered(base, ["*." + base])
    ensures '\r' !in ToLower("*." + base) && ':' !in base && base != ""
  {
    WildcardOf(base);
    OnlyPattern("*." + base, base);
  }

  lemma OnlyPattern(pattern: string, base: string)
    requires ValidDomain(pattern) && ValidDomain(base) && ToLower(pattern) == "*." + ToLower(base)
    requires !MatchDomain(pattern, base) && '*' !in base
    ensures ToLower(base) in BasesOf([pattern]) && !Covered(base, [pattern])
    ensures '\r' !in ToLower(pattern) && ':' !in base && base != ""
  {
    OneBase(pattern, ToLower(base));
    ValidDomainChars(pattern);
    NoColon(base);
    UncoveredByOne(base, pattern);
  }

  lemma UncoveredByOne(host: string, pattern: string)
    requires !MatchDomain(pattern, host)
    ensures !Covered(host, [pattern])
  {
  }

  lemma NoColon(d: string)
    requires ValidDomain(d)
    ensures ':' !in d && d != ""
  {
    ValidDomainChars(d);
  }

  lemma OneBase(pattern: string, b: string)
    requires ToLower(pattern) == "*." + b
    ensures b in BasesOf([pattern])
  {
    SplitMembers([pattern]);
    assert [pattern][0] == pattern;
    assert ToLower(pattern) in LowerSet([pattern]);
    assert ("*." + b)[2..] == b;
  }

  lemma SingleEffective(pattern: string)
    ensures Effective(Some(Egress([pattern], [], ENFORCE))) == [pattern]
  {
    var none: seq<string> := [];
    assert LowerSet(none) == {};
    assert [pattern][..0] == none;
    assert Unblocked(none, {}) + [pattern] == [pattern];
    assert Unblocked([pattern], LowerSet(none)) == Unblocked([pattern][..0], {}) + [pattern];
  }

  lemma WildcardOf(base: string)
    requires ValidDomain(base) && '*' !in base
    ensures ValidDomain("*." + base) && ToLower("*." + base) == "*." + ToLower(base)
    ensures !MatchDomain("*." + base, base)
  {
    var pattern := "*." + base;
    assert pattern[2..] == base;
    assert pattern[1..] == "." + base;
    ValidDomainChars(base);
    NoStars("." + base);
    assert ToLower(pattern)[1..] == "." + ToLower(base);
  }

  lemma {:induction false} NoStars(s: string)
    requires '*' !in s
    ensures CountStars(s) == 0
  {
    if s != [] {
      assert s[0] in s;
      NoStars(s[1..]);
    }
  }
}
