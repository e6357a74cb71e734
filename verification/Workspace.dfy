/** Deploying behavior files into an agent's workspace (pkg/common/behavior.go,
    pkg/common/overlay.go, pkg/provider/localprovider/provider.go): resolve, write, reconcile
    deletions against the recorded manifest, record a new one. */
module Workspace {
  import opened Optional
  import opened Strings

  const SOUL := "SOUL.md"
  const AGENTS := "AGENTS.md"
  const USER := "USER.md"
  const USER_TEMPLATE := "USER.md.tmpl"
  const MANIFEST_FILE := ".conga-overlay-manifest.json"

  predicate IsBehaviorName(name: string) {
    name == SOUL || name == AGENTS || name == USER
  }

  // ---- Resolving ----

  datatype Source = FromAgent | FromOverlay | FromDefault

  datatype BehaviorFile = BehaviorFile(content: string, source: Source)

  type BehaviorFiles = map<string, BehaviorFile>

  /** What a deploy reads: the agent's own directory, the defaults of its runtime and type, and
      the template variables of its channel bindings. */
  datatype Sources = Sources(own: map<string, string>, defaults: map<string, string>, name: string,
                             vars: seq<(string, string)>)

  /** strings.ReplaceAll for a non-empty pattern. */
  function ReplaceAll(s: string, pattern: string, with: string): string
    requires pattern != ""
    decreases |s|
  {
    if s == [] then ""
    else if HasPrefix(s, pattern) then with + ReplaceAll(s[|pattern|..], pattern, with)
    else [s[0]] + ReplaceAll(s[1..], pattern, with)
  }

  function RenderVars(content: string, vars: seq<(string, string)>): string
    decreases |vars|
  {
    if vars == [] then content
    else RenderVars(ReplaceAll(content, "{{" + vars[0].0 + "}}", vars[0].1), vars[1..])
  }

  function Render(template: string, src: Sources): string {
    RenderVars(ReplaceAll(ReplaceAll(template, "{{.AgentName}}", src.name), "{{AGENT_NAME}}", src.name), src.vars)
  }

  function ResolvePlain(src: Sources, name: string): Option<BehaviorFile> {
    if name in src.own then Some(BehaviorFile(src.own[name], FromAgent))
    else if name in src.defaults then Some(BehaviorFile(src.defaults[name], FromDefault))
    else None
  }

  function ResolveUser(src: Sources): Option<BehaviorFile> {
    if USER in src.own then Some(BehaviorFile(src.own[USER], FromAgent))
    else if USER_TEMPLATE in src.own then Some(BehaviorFile(Render(src.own[USER_TEMPLATE], src), FromAgent))
    else if USER_TEMPLATE in src.defaults then Some(BehaviorFile(Render(src.defaults[USER_TEMPLATE], src), FromDefault))
    else None
  }

  function ResolveOne(src: Sources, name: string): Option<BehaviorFile> {
    if name == SOUL || name == AGENTS then ResolvePlain(src, name)
    else if name == USER then ResolveUser(src)
    else None
  }

  function Resolve(src: Sources): (files: BehaviorFiles)
    ensures forall name :: name in files <==> ResolveOne(src, name).Some?
    ensures forall name :: name in files ==> files[name] == ResolveOne(src, name).value
    ensures forall name :: name in files ==> IsBehaviorName(name)
  {
    map name | name in {SOUL, AGENTS, USER} && ResolveOne(src, name).Some? :: ResolveOne(src, name).value
  }

  /** The agent's own file goes before the default, and what the defaults say of it then makes no
      difference; without one the default stands in, marked as such; without either there is none.
      USER.md has no plain default, and a template of the agent's own goes before the default one. */
  lemma ResolvesByPrecedence(src: Sources, name: string, other: map<string, string>)
    requires IsBehaviorName(name)
    ensures name in src.own ==>
              && name in Resolve(src) && Resolve(src)[name] == BehaviorFile(src.own[name], FromAgent)
              && name in Resolve(src.(defaults := other)) && Resolve(src.(defaults := other))[name] == Resolve(src)[name]
    ensures name != USER && name !in src.own ==>
              && (name in Resolve(src) <==> name in src.defaults)
              && (name in src.defaults ==> Resolve(src)[name] == BehaviorFile(src.defaults[name], FromDefault))
    ensures USER !in src.own ==> (USER in Resolve(src) <==> USER_TEMPLATE in src.own || USER_TEMPLATE in src.defaults)
    ensures USER !in src.own && USER in Resolve(src) ==>
              && (Resolve(src)[USER].source == FromAgent <==> USER_TEMPLATE in src.own)
              && Resolve(src)[USER].content
                 == Render(if USER_TEMPLATE in src.own then src.own[USER_TEMPLATE] else src.defaults[USER_TEMPLATE], src)
  {
    assert SOUL[0] == 'S' && AGENTS[0] == 'A' && USER[0] == 'U';
  }

  /** Replacing puts the new text between the pieces that the pattern separates. */
  lemma {:induction false} ReplacesBetween(pieces: seq<string>, pattern: string, with: string)
    requires pattern != "" && forall i :: 0 <= i < |pieces| ==> pattern[0] !in pieces[i]
    ensures ReplaceAll(Join(pieces, pattern), pattern, with) == Join(pieces, with)
  {
    if |pieces| == 1 {
      NothingToReplace(pieces[0], pattern, with, "");
      assert pieces[0] + "" == pieces[0];
    } else if |pieces| > 1 {
      var rest := Join(pieces[1..], pattern);
      assert Join(pieces, pattern) == pieces[0] + (pattern + rest);
      NothingToReplace(pieces[0], pattern, with, pattern + rest);
      assert (pattern + rest)[..|pattern|] == pattern && (pattern + rest)[|pattern|..] == rest;
      ReplacesBetween(pieces[1..], pattern, with);
    }
  }

  lemma {:induction false} NothingToReplace(s: string, pattern: string, with: string, rest: string)
    requires pattern != "" && pattern[0] !in s
    ensures ReplaceAll(s + rest, pattern, with) == s + ReplaceAll(rest, pattern, with)
  {
    if s == "" {
      assert s + rest == rest;
    } else {
      assert s[0] in s;
      assert (s + rest)[1..] == s[1..] + rest;
      NothingToReplace(s[1..], pattern, with, rest);
      assert |pattern| <= |s + rest| ==> (s + rest)[..|pattern|][0] == s[0];
    }
  }

  /** A marker with another name in it is passed over. */
  lemma OtherMarkerKept(key: string, other: string, with: string, rest: string)
    requires key != "" && other != "" && key[0] != other[0] && '{' !in key
    ensures ReplaceAll("{{" + key + rest, "{{" + other, with) == "{{" + key + ReplaceAll(rest, "{{" + other, with)
  {
    var s, pattern := "{{" + key + rest, "{{" + other;
    assert s[2] == key[0] && pattern[2] == other[0];
    assert |pattern| <= |s| ==> s[..|pattern|][2] == s[2];
    var t := s[1..];
    assert t[1] == key[0] && key[0] in key && pattern[1] == '{';
    assert |pattern| <= |t| ==> t[..|pattern|][1] == t[1];
    assert t[1..] == key + rest;
    NothingToReplace(key, pattern, with, rest);
    assert ['{'] + (['{'] + (key + ReplaceAll(rest, pattern, with))) == "{{" + key + ReplaceAll(rest, pattern, with);
  }

  lemma {:induction false} OtherMarkersKept(pieces: seq<string>, key: string, other: string, with: string)
    requires key != "" && other != "" && key[0] != other[0] && '{' !in key
    requires forall i :: 0 <= i < |pieces| ==> '{' !in pieces[i]
    ensures ReplaceAll(Join(pieces, "{{" + key), "{{" + other, with) == Join(pieces, "{{" + key)
  {
    if |pieces| == 1 {
      NothingToReplace(pieces[0], "{{" + other, with, "");
      assert pieces[0] + "" == pieces[0];
    } else if |pieces| > 1 {
      var marker, rest := "{{" + key, Join(pieces[1..], "{{" + key);
      assert Join(pieces, marker) == pieces[0] + (marker + rest);
      NothingToReplace(pieces[0], "{{" + other, with, marker + rest);
      OtherMarkerKept(key, other, with, rest);
      OtherMarkersKept(pieces[1..], key, other, with);
    }
  }

  /** A template that has either marker for the agent's name at some places gets the name there, and
      the variables change nothing in a text without braces. */
  lemma RendersName(pieces: seq<string>, src: Sources)
    requires '{' !in src.name && forall i :: 0 <= i < |pieces| ==> '{' !in pieces[i]
    ensures Render(Join(pieces, "{{.AgentName}}"), src) == Join(pieces, src.name)
    ensures Render(Join(pieces, "{{AGENT_NAME}}"), src) == Join(pieces, src.name)
  {
    var out := Join(pieces, src.name);
    ReplacesBetween(pieces, "{{.AgentName}}", src.name);
    JoinAvoids(pieces, src.name, '{');
    NothingToReplace(out, "{{AGENT_NAME}}", src.name, "");
    assert out + "" == out;
    VarsLeave(out, src.vars);
    MarkersAre();
    OtherMarkersKept(pieces, "AGENT_NAME}}", ".AgentName}}", src.name);
    ReplacesBetween(pieces, "{{AGENT_NAME}}", src.name);
  }

  lemma MarkersAre()
    ensures "{{" + "AGENT_NAME}}" == "{{AGENT_NAME}}" && "{{" + ".AgentName}}" == "{{.AgentName}}"
    ensures '{' !in "AGENT_NAME}}"
  {
  }

  /** A template variable gets its value. */
  lemma RendersVariable(pieces: seq<string>, key: string, value: string)
    requires forall i :: 0 <= i < |pieces| ==> '{' !in pieces[i]
    ensures RenderVars(Join(pieces, "{{" + key + "}}"), [(key, value)]) == Join(pieces, value)
  {
    ReplacesBetween(pieces, "{{" + key + "}}", value);
    var vars := [(key, value)];
    assert vars[1..] == [];
    assert RenderVars(Join(pieces, value), vars[1..]) == Join(pieces, value);
  }

  lemma {:induction false} VarsLeave(s: string, vars: seq<(string, string)>)
    requires '{' !in s
    ensures RenderVars(s, vars) == s
  {
    if vars != [] {
      NothingToReplace(s, "{{" + vars[0].0 + "}}", vars[0].1, "");
      assert s + "" == s;
      VarsLeave(s, vars[1..]);
    }
  }

  lemma {:induction false} JoinAvoids(pieces: seq<string>, sep: string, c: char)
    requires c !in sep && forall i :: 0 <= i < |pieces| ==> c !in pieces[i]
    ensures c !in Join(pieces, sep)
  {
    if |pieces| > 1 {
      JoinAvoids(pieces[1..], sep, c);
    }
  }

  method RenderBindings(content: string, vars: seq<(string, string)>) returns (out: string)
    ensures out == RenderVars(content, vars)
  {
    out := content;
    for i := 0 to |vars|
      invariant RenderVars(out, vars[i..]) == RenderVars(content, vars)
    {
      assert vars[i..][0] == vars[i] && vars[i..][1..] == vars[i + 1..];
      out := ReplaceAll(out, "{{" + vars[i].0 + "}}", vars[i].1);
    }
  }

  method ResolvePlainFiles(src: Sources) returns (files: BehaviorFiles)
    ensures forall name :: name in files <==> (name == SOUL || name == AGENTS) && ResolvePlain(src, name).Some?
    ensures forall name :: name in files ==> files[name] == ResolvePlain(src, name).value
  {
    files := map[];
    var plain := [SOUL, AGENTS];
    for i := 0 to |plain|
      invariant forall name :: name in files <==> name in plain[..i] && ResolvePlain(src, name).Some?
      invariant forall name :: name in files ==> files[name] == ResolvePlain(src, name).value
    {
      var name := plain[i];
      assert plain[..i + 1] == plain[..i] + [name];
      if name in src.own {
        files := files[name := BehaviorFile(src.own[name], FromAgent)];
        continue;
      }
      if name in src.defaults {
        files := files[name := BehaviorFile(src.defaults[name], FromDefault)];
      }
    }
    assert plain[..|plain|] == plain;
  }

  method ResolveBehaviorFiles(src: Sources) returns (files: BehaviorFiles)
    ensures files == Resolve(src)
  {
    files := ResolvePlainFiles(src);
    if USER in src.own {
      files := files[USER := BehaviorFile(src.own[USER], FromAgent)];
    } else {
      var template: Option<string> := None;
      var source := FromDefault;
      if USER_TEMPLATE in src.own {
        template, source := Some(src.own[USER_TEMPLATE]), FromAgent;
      } else if USER_TEMPLATE in src.defaults {
        template := Some(src.defaults[USER_TEMPLATE]);
      }
      if template.Some? {
        var content := ReplaceAll(template.value, "{{.AgentName}}", src.name);
        content := ReplaceAll(content, "{{AGENT_NAME}}", src.name);
        content := RenderBindings(content, src.vars);
        files := files[USER := BehaviorFile(content, source)];
      }
    }
    var spec := Resolve(src);
    assert files.Keys == spec.Keys;
  }

  // ---- Protected paths ----

  datatype Runtime = OpenClaw | Hermes | OtherRuntime

  const PROTECTED := ["MEMORY.md", "memory/", "logs/", MANIFEST_FILE]

  function RuntimeProtected(rt: Runtime): seq<string> {
    match rt
    case OpenClaw => ["agents/", "canvas/", "cron/", "devices/", "identity/", "media/"]
    case Hermes => ["skills/"]
    case OtherRuntime => []
  }

  predicate Matches(rel: string, p: string) {
    rel == p || (HasSuffix(p, "/") && HasPrefix(rel, p))
  }

  predicate IsProtectedPath(rel: string, rt: Runtime) {
    (exists i :: 0 <= i < |PROTECTED| && Matches(rel, PROTECTED[i]))
    || (exists i :: 0 <= i < |RuntimeProtected(rt)| && Matches(rel, RuntimeProtected(rt)[i]))
  }

  /** The three names a deploy can write are protected under no runtime, so the check before a
      deploy never refuses one. */
  lemma BehaviorNamesUnprotected(name: string, rt: Runtime)
    requires IsBehaviorName(name)
    ensures !IsProtectedPath(name, rt)
  {
    assert name[0] == 'S' || name[0] == 'A' || name[0] == 'U';
    CommonPathsDiffer(name);
    RuntimePathsLower(rt);
    forall i | 0 <= i < |RuntimeProtected(rt)|
      ensures !Matches(name, RuntimeProtected(rt)[i])
    {
      FirstDiffers(name, RuntimeProtected(rt)[i]);
    }
  }

  lemma CommonPathsDiffer(name: string)
    requires name != "" && (name[0] == 'S' || name[0] == 'A' || name[0] == 'U')
    ensures forall i :: 0 <= i < |PROTECTED| ==> !Matches(name, PROTECTED[i])
  {
    FirstDiffers(name, PROTECTED[0]);
    FirstDiffers(name, PROTECTED[1]);
    FirstDiffers(name, PROTECTED[2]);
    FirstDiffers(name, PROTECTED[3]);
  }

  lemma RuntimePathsLower(rt: Runtime)
    ensures forall i :: 0 <= i < |RuntimeProtected(rt)| ==>
              RuntimeProtected(rt)[i] != "" && 'a' <= RuntimeProtected(rt)[i][0] <= 'z'
  {
  }

  /** What an agent keeps for itself is protected under every runtime. */
  lemma ProtectsMemory(x: string, rt: Runtime)
    ensures IsProtectedPath("memory/" + x, rt) && IsProtectedPath("logs/" + x, rt)
    ensures IsProtectedPath("MEMORY.md", rt) && IsProtectedPath(MANIFEST_FILE, rt)
  {
    assert PROTECTED[1] == "memory/" && PROTECTED[2] == "logs/";
    assert Matches("memory/" + x, PROTECTED[1]);
    assert Matches("logs/" + x, PROTECTED[2]);
    assert Matches("MEMORY.md", PROTECTED[0]);
    assert Matches(MANIFEST_FILE, PROTECTED[3]);
  }

  /** So is what its runtime keeps for it. */
  lemma ProtectsRuntime(x: string)
    ensures IsProtectedPath("agents/" + x, OpenClaw) && IsProtectedPath("canvas/" + x, OpenClaw) && IsProtectedPath("cron/" + x, OpenClaw)
    ensures IsProtectedPath("devices/" + x, OpenClaw) && IsProtectedPath("identity/" + x, OpenClaw) && IsProtectedPath("media/" + x, OpenClaw)
    ensures IsProtectedPath("skills/" + x, Hermes)
  {
    assert Matches("agents/" + x, RuntimeProtected(OpenClaw)[0]);
    assert Matches("canvas/" + x, RuntimeProtected(OpenClaw)[1]);
    assert Matches("cron/" + x, RuntimeProtected(OpenClaw)[2]);
    assert Matches("devices/" + x, RuntimeProtected(OpenClaw)[3]);
    assert Matches("identity/" + x, RuntimeProtected(OpenClaw)[4]);
    assert Matches("media/" + x, RuntimeProtected(OpenClaw)[5]);
    assert Matches("skills/" + x, RuntimeProtected(Hermes)[0]);
  }

  lemma FirstDiffers(rel: string, p: string)
    requires rel != "" && p != "" && p[0] != rel[0]
    ensures !Matches(rel, p)
  {
    assert |p| <= |rel| ==> rel[..|p|][0] == rel[0];
  }

  // ---- Manifests ----

  /** A content hash; two contents hash alike only when they are the same. */
  datatype Hash = Hash(content: string)

  datatype Entry = Entry(path: string, hash: Hash, source: Source)

  type Manifest = seq<Entry>

  ghost predicate Records(e: Entry, files: BehaviorFiles) {
    e.path in files && e.hash == Hash(files[e.path].content) && e.source == files[e.path].source
  }

  predicate Lists(m: Manifest, p: string) {
    exists i :: 0 <= i < |m| && m[i].path == p
  }

  /** The entries are exactly the files, each once, with the hash of its content. */
  ghost predicate Describes(m: Manifest, files: BehaviorFiles) {
    && (forall i :: 0 <= i < |m| ==> Records(m[i], files))
    && (forall p :: p in files ==> Lists(m, p))
    && (forall i, j :: 0 <= i < j < |m| ==> m[i].path != m[j].path)
  }

  lemma ListsSnoc(m: Manifest, e: Entry, p: string)
    ensures Lists(m + [e], p) <==> Lists(m, p) || p == e.path
  {
    if Lists(m, p) {
      var i :| 0 <= i < |m| && m[i].path == p;
      assert (m + [e])[i].path == p;
    }
    if p == e.path {
      assert (m + [e])[|m|].path == p;
    }
  }

  method BuildManifest(files: BehaviorFiles) returns (m: Manifest)
    ensures Describes(m, files)
  {
    m := [];
    var todo := files.Keys;
    while todo != {}
      invariant todo <= files.Keys
      invariant forall i :: 0 <= i < |m| ==> Records(m[i], files) && m[i].path !in todo
      invariant forall p :: p in files && p !in todo ==> Lists(m, p)
      invariant forall i, j :: 0 <= i < j < |m| ==> m[i].path != m[j].path
      decreases todo
    {
      var p :| p in todo;
      var e := Entry(p, Hash(files[p].content), files[p].source);
      forall q {
        ListsSnoc(m, e, q);
      }
      m := m + [e];
      todo := todo - {p};
    }
  }

  /** Whether the recorded entry makes its file one to delete. */
  predicate Stale(e: Entry, files: BehaviorFiles, disk: map<string, string>) {
    && e.source != FromDefault
    && e.path !in files
    && e.path in disk
    && Hash(disk[e.path]) == e.hash
  }

  function StalePaths(prev: Manifest, files: BehaviorFiles, disk: map<string, string>): set<string> {
    set i | 0 <= i < |prev| && Stale(prev[i], files, disk) :: prev[i].path
  }

  method ReconcileDeletions(prev: Option<Manifest>, files: BehaviorFiles, disk: map<string, string>)
      returns (toDelete: seq<string>)
    ensures prev.None? ==> toDelete == []
    ensures prev.Some? ==> Elements(toDelete) == StalePaths(prev.value, files, disk)
  {
    toDelete := [];
    if prev.None? {
      return;
    }
    var entries := prev.value;
    for i := 0 to |entries|
      invariant forall p :: p in toDelete <==> exists j :: 0 <= j < i && Stale(entries[j], files, disk) && entries[j].path == p
    {
      var e := entries[i];
      if e.source != FromAgent && e.source != FromOverlay {
        continue;
      }
      if e.path in files {
        continue;
      }
      if e.path !in disk {
        continue;
      }
      if Hash(disk[e.path]) == e.hash {
        assert Stale(entries[i], files, disk);
        toDelete := toDelete + [e.path];
      }
    }
  }

  // ---- Deploying ----

  /** A file operation works, or fails leaving the file alone or with some other content, or is
      reported as failed although all of it was done. */
  datatype IoFault = Fine | Broken(left: Option<string>) | Late

  datatype Composed = NoFiles | Protected(path: string) | Composed(files: BehaviorFiles, toDelete: seq<string>, next: Manifest)

  method ComposeAgentWorkspaceFiles(src: Sources, rt: Runtime, prev: Option<Manifest>, disk: map<string, string>)
      returns (c: Composed)
    ensures c.Composed? <==> Resolve(src) != map[]
    ensures !c.Protected?
    ensures c.Composed? ==>
              && c.files == Resolve(src) && Describes(c.next, c.files)
              && Elements(c.toDelete)
                 == if prev.Some? then StalePaths(prev.value, c.files, disk) else {}
  {
    var files := ResolveBehaviorFiles(src);
    var todo := files.Keys;
    while todo != {}
      invariant todo <= files.Keys
      decreases todo
    {
      var name :| name in todo;
      BehaviorNamesUnprotected(name, rt);
      if files[name].source == FromAgent && IsProtectedPath(name, rt) {
        return Protected(name);
      }
      todo := todo - {name};
    }
    if |files| == 0 {
      return NoFiles;
    }
    var toDelete := ReconcileDeletions(prev, files, disk);
    var next := BuildManifest(files);
    assert prev.None? ==> Elements(toDelete) == {};
    c := Composed(files, toDelete, next);
  }

  function Contents(files: BehaviorFiles): map<string, string> {
    map p | p in files :: files[p].content
  }

  ghost predicate FineFrom(script: nat -> IoFault, t: nat) {
    forall k: nat :: k >= t ==> script(k) == Fine
  }

  ghost predicate Truthful(m: Option<Manifest>, recorded: map<string, string>) {
    m.Some? ==> forall i :: 0 <= i < |m.value| ==>
      var e := m.value[i];
      IsBehaviorName(e.path) && e.path in recorded && e.hash == Hash(recorded[e.path])
  }

  /** A workspace at one moment. */
  datatype Snapshot = Snapshot(files: map<string, string>, manifest: Option<Manifest>, recorded: map<string, string>)

  /** What one deploy does: the whole of Deploy's promise, about two moments. `fine` says that no
      I/O fails. Without a behavior directory there is nothing to do, an empty composition is an
      error, and neither touches the workspace. */
  ghost predicate Deployed(a: Snapshot, b: Snapshot, src: Option<Sources>, ok: bool, fine: bool) {
    && SafeDeploy(a.files, b.files, a.recorded, src)
    && if src.None? || Resolve(src.value) == map[] then b == a && ok == src.None?
       else DeployedFiles(a, b, Resolve(src.value), ok, fine)
  }

  /** The composed contents are there, and the manifest on disk describes them. */
  ghost predicate InPlace(b: Snapshot, files: BehaviorFiles) {
    && (forall p :: p in files ==> p in b.files && b.files[p] == files[p].content)
    && b.manifest.Some? && Describes(b.manifest.value, files) && b.recorded == Contents(files)
  }

  ghost predicate DeployedFiles(a: Snapshot, b: Snapshot, files: BehaviorFiles, ok: bool, fine: bool) {
    // A successful deploy leaves everything in place; a failing one does too, or records nothing.
    && (ok ==> InPlace(b, files))
    && (!ok ==> b.recorded == a.recorded || InPlace(b, files))
    // Deploying again what is there loses nothing and changes nothing.
    && (ok && Settled(a.files, a.manifest, files) ==> b.files == a.files)
    // Without I/O faults the result is exact.
    && (fine ==> ok && b.files == Replaced(a, files))
  }

  ghost predicate Written(b: Snapshot, fs: BehaviorFiles, next: Manifest) {
    && (forall p :: p in fs ==> p in b.files && b.files[p] == fs[p].content)
    && b.manifest == Some(next) && b.recorded == Contents(fs)
  }

  /** What writing files, deleting paths and recording a manifest does, as far as it gets. */
  ghost predicate Applied(a: Snapshot, b: Snapshot, fs: BehaviorFiles, del: set<string>, next: Manifest, ok: bool, fine: bool) {
    && b.files.Keys <= a.files.Keys + fs.Keys
    && (forall p :: p in a.files && p !in del ==> p in b.files)
    && (forall p :: p in b.files && p !in fs ==> p in a.files && b.files[p] == a.files[p])
    && (ok ==> Written(b, fs, next))
    && (!ok ==> Written(b, fs, next) || ((b.manifest == a.manifest || b.manifest == None) && b.recorded == a.recorded))
    && (fine ==> ok && b.files == (a.files + Contents(fs)) - del)
  }

  lemma AppliedIsSafe(a: Snapshot, b: Snapshot, src: Sources, files: BehaviorFiles, del: set<string>, next: Manifest, ok: bool, fine: bool)
    requires Truthful(a.manifest, a.recorded) && files == Resolve(src)
    requires del == if a.manifest.Some? then StalePaths(a.manifest.value, files, a.files) else {}
    requires Applied(a, b, files, del, next, ok, fine)
    ensures SafeDeploy(a.files, b.files, a.recorded, Some(src))
  {
    DeletionsAreSafe(files, del, a.files, a.manifest, a.recorded);
    assert forall p :: p in files ==> IsBehaviorName(p);
    forall p | !IsBehaviorName(p)
      ensures (p in b.files <==> p in a.files) && (p in a.files ==> b.files[p] == a.files[p])
    {
    }
  }

  lemma AppliedIsComplete(a: Snapshot, b: Snapshot, files: BehaviorFiles, del: set<string>, next: Manifest, ok: bool, fine: bool)
    requires Describes(next, files) && (forall p :: p in files ==> IsBehaviorName(p))
    requires Truthful(a.manifest, a.recorded)
    requires del == if a.manifest.Some? then StalePaths(a.manifest.value, files, a.files) else {}
    requires Applied(a, b, files, del, next, ok, fine)
    ensures DeployedFiles(a, b, files, ok, fine) && Truthful(b.manifest, b.recorded)
  {
    ComposedIsTruthful(next, files);
    if ok && Settled(a.files, a.manifest, files) {
      SettledStays(a.files, a.manifest, files, del, b.files);
    }
  }

  lemma AppliedIsDeployed(a: Snapshot, b: Snapshot, src: Sources, files: BehaviorFiles, del: set<string>, next: Manifest, ok: bool, fine: bool)
    requires Truthful(a.manifest, a.recorded) && files == Resolve(src) && files != map[] && Describes(next, files)
    requires del == if a.manifest.Some? then StalePaths(a.manifest.value, files, a.files) else {}
    requires Applied(a, b, files, del, next, ok, fine)
    ensures Deployed(a, b, Some(src), ok, fine) && Truthful(b.manifest, b.recorded)
  {
    AppliedIsSafe(a, b, src, files, del, next, ok, fine);
    assert forall p :: p in files ==> IsBehaviorName(p);
    AppliedIsComplete(a, b, files, del, next, ok, fine);
  }

  /** The composed files written over the old ones, and the stale ones gone. */
  ghost function Replaced(a: Snapshot, files: BehaviorFiles): map<string, string> {
    (a.files + Contents(files)) - (if a.manifest.Some? then StalePaths(a.manifest.value, files, a.files) else {})
  }

  /** One agent's workspace. The manifest file is kept apart from the other files: only
      deploys write it. `recorded` is what the deploy that wrote the manifest had written. */
  class AgentWorkspace {
    const script: nat -> IoFault
    var clock: nat
    var files: map<string, string>
    var manifest: Option<Manifest>
    ghost var recorded: map<string, string>

    constructor (script: nat -> IoFault, files: map<string, string>)
      ensures Valid() && this.script == script && this.files == files && manifest.None?
    {
      this.script, this.clock, this.files, this.manifest, this.recorded := script, 0, files, None, map[];
    }

    ghost function Now(): Snapshot
      reads this
    {
      Snapshot(files, manifest, recorded)
    }

    /** The manifest tells the truth about what was recorded, and names only behavior files. */
    ghost predicate Valid()
      reads this
    {
      Truthful(manifest, recorded)
    }

    /** Agents may write and delete anything but the manifest. */
    method Edit(path: string, content: string)
      requires Valid() && path != MANIFEST_FILE
      modifies this`files
      ensures Valid() && files == old(files)[path := content]
    {
      files := files[path := content];
    }

    method Erase(path: string)
      requires Valid() && path != MANIFEST_FILE
      modifies this`files
      ensures Valid() && files == old(files) - {path}
    {
      files := files - {path};
    }

    method WriteFile(path: string, content: string) returns (ok: bool)
      modifies this`files, this`clock
      ensures clock == old(clock) + 1
      ensures old(files).Keys <= files.Keys <= old(files).Keys + {path}
      ensures forall p :: p in files && p != path ==> files[p] == old(files)[p]
      ensures ok ==> files == old(files)[path := content]
      ensures script(old(clock)) == Fine ==> ok
    {
      var f := script(clock);
      clock := clock + 1;
      ok := f == Fine;
      if ok || f.Late? {
        files := files[path := content];
      } else if f.left.Some? {
        files := files[path := f.left.value];
      }
    }

    method WriteAll(fs: BehaviorFiles) returns (ok: bool)
      modifies this`files, this`clock
      ensures clock >= old(clock)
      ensures files.Keys <= old(files).Keys + fs.Keys && old(files).Keys <= files.Keys
      ensures forall p :: p in files && p !in fs ==> p in old(files) && files[p] == old(files)[p]
      ensures ok ==> files == old(files) + Contents(fs)
      ensures FineFrom(script, old(clock)) ==> ok
    {
      var todo := fs.Keys;
      while todo != {}
        invariant todo <= fs.Keys && clock >= old(clock)
        invariant old(files).Keys <= files.Keys <= old(files).Keys + fs.Keys
        invariant forall p :: p in files && p !in fs ==> p in old(files) && files[p] == old(files)[p]
        invariant forall p :: p in fs && p !in todo ==> p in files && files[p] == fs[p].content
        decreases todo
      {
        var p :| p in todo;
        ok := WriteFile(p, fs[p].content);
        if !ok {
          return;
        }
        todo := todo - {p};
      }
      ok := true;
      assert files == old(files) + Contents(fs);
    }

    /** os.Remove, its result ignored. */
    method RemoveAll(paths: seq<string>)
      modifies this`files, this`clock
      ensures clock >= old(clock)
      ensures files.Keys <= old(files).Keys <= files.Keys + Elements(paths)
      ensures forall p :: p in files ==> files[p] == old(files)[p]
      ensures FineFrom(script, old(clock)) ==> files == old(files) - Elements(paths)
    {
      for i := 0 to |paths|
        invariant clock >= old(clock)
        invariant files.Keys <= old(files).Keys <= files.Keys + Elements(paths[..i])
        invariant forall p :: p in files ==> files[p] == old(files)[p]
        invariant FineFrom(script, old(clock)) ==> files == old(files) - Elements(paths[..i])
      {
        assert Elements(paths[..i + 1]) == Elements(paths[..i]) + {paths[i]};
        var f := script(clock);
        clock := clock + 1;
        if !f.Broken? {
          files := files - {paths[i]};
        }
      }
      assert paths[..|paths|] == paths;
    }

    method WriteOverlayManifest(m: Manifest, ghost contents: map<string, string>) returns (ok: bool)
      modifies this`manifest, this`recorded, this`clock
      ensures clock == old(clock) + 1
      ensures ok ==> manifest == Some(m) && recorded == contents
      ensures !ok ==>
                || (manifest == Some(m) && recorded == contents)
                || ((manifest == old(manifest) || manifest == None) && recorded == old(recorded))
      ensures script(old(clock)) == Fine ==> ok
    {
      var f := script(clock);
      clock := clock + 1;
      ok := f == Fine;
      if ok || f.Late? {
        manifest, recorded := Some(m), contents;
      } else if f.left.Some? {
        manifest := None;
      }
    }

    /** Deploys `src`; None when there is no behavior directory at all. */
    method Deploy(src: Option<Sources>, rt: Runtime) returns (ok: bool)
      requires Valid()
      modifies this
      ensures Valid() && clock >= old(clock)
      ensures Deployed(old(Now()), Now(), src, ok, FineFrom(script, old(clock)))
    {
      if src.None? {
        return true;
      }
      ghost var before := Now();
      var c := ComposeAgentWorkspaceFiles(src.value, rt, manifest, files);
      if !c.Composed? {
        return false;
      }
      DeletionsAreSafe(c.files, Elements(c.toDelete), files, manifest, recorded);
      ok := Apply(c.files, c.toDelete, c.next);
      AppliedIsDeployed(before, Now(), src.value, c.files, Elements(c.toDelete), c.next, ok, FineFrom(script, old(clock)));
    }

    /** Write, then delete, then record; the first failing write stops it. */
    method Apply(fs: BehaviorFiles, toDelete: seq<string>, next: Manifest) returns (ok: bool)
      requires forall p :: p in Elements(toDelete) ==> p !in fs
      modifies this
      ensures clock >= old(clock)
      ensures Applied(old(Now()), Now(), fs, Elements(toDelete), next, ok, FineFrom(script, old(clock)))
    {
      ok := WriteAll(fs);
      if !ok {
        return;
      }
      assert forall p :: p in fs ==> p in files && files[p] == fs[p].content;
      RemoveAll(toDelete);
      assert forall p :: p in fs ==> p in files && files[p] == fs[p].content;
      ok := WriteOverlayManifest(next, Contents(fs));
    }
  }

  /** Everything a manifest makes stale holds what was recorded and is no longer composed. */
  lemma DeletionsAreSafe(files: BehaviorFiles, del: set<string>, disk: map<string, string>,
                         prev: Option<Manifest>, recorded: map<string, string>)
    requires Truthful(prev, recorded)
    requires del == if prev.Some? then StalePaths(prev.value, files, disk) else {}
    ensures forall p :: p in del ==>
              p !in files && p in disk && IsBehaviorName(p) && p in recorded && disk[p] == recorded[p]
  {
  }

  lemma ComposedIsTruthful(m: Manifest, files: BehaviorFiles)
    requires Describes(m, files) && forall p :: p in files ==> IsBehaviorName(p)
    ensures Truthful(Some(m), Contents(files))
  {
    assert forall i :: 0 <= i < |m| ==> Records(m[i], files);
  }

  lemma SettledStays(disk: map<string, string>, m: Option<Manifest>, files: BehaviorFiles, del: set<string>,
                     after: map<string, string>)
    requires Settled(disk, m, files)
    requires del == if m.Some? then StalePaths(m.value, files, disk) else {}
    requires after.Keys <= disk.Keys + files.Keys
    requires forall p :: p in disk && p !in del ==> p in after
    requires forall p :: p in after && p !in files ==> p in disk && after[p] == disk[p]
    requires forall p :: p in files ==> p in after && after[p] == files[p].content
    ensures after == disk
  {
    if m.Some? {
      assert forall i :: 0 <= i < |m.value| ==> Records(m.value[i], files);
      assert del == {};
    }
  }

  ghost predicate SafeDeploy(before: map<string, string>, after: map<string, string>, recorded: map<string, string>,
                             src: Option<Sources>)
  {
    && (forall p :: p in before && p !in after ==>
          IsBehaviorName(p) && p in recorded && before[p] == recorded[p] && src.Some? && p !in Resolve(src.value))
    && (forall p :: !IsBehaviorName(p) ==> (p in after <==> p in before) && (p in before ==> after[p] == before[p]))
  }

  /** The workspace holds the files and the manifest describes them. */
  ghost predicate Settled(disk: map<string, string>, m: Option<Manifest>, files: BehaviorFiles) {
    && (forall p :: p in files ==> p in disk && disk[p] == files[p].content)
    && (m.Some? ==> Describes(m.value, files))
  }

  // ---- Runs ----

  datatype Op = EditOp(path: string, content: string) | EraseOp(path: string) | DeployOp(src: Option<Sources>, rt: Runtime)

  /** One operation, between two moments. */
  ghost predicate OpStep(a: Snapshot, b: Snapshot, op: Op, ok: bool, fine: bool) {
    match op
    case EditOp(path, content) => b == a.(files := a.files[path := content])
    case EraseOp(path) => b == a.(files := a.files - {path})
    case DeployOp(src, _) => Deployed(a, b, src, ok, fine)
  }

  /** A run of operations: the moments around them, and which of the deploys succeeded. */
  ghost predicate RunOf(start: Snapshot, ops: seq<Op>, moments: seq<Snapshot>, oks: seq<bool>, fine: bool) {
    && |moments| == |ops| + 1 && |oks| == |ops| && moments[0] == start
    && forall i :: 0 <= i < |ops| ==> OpStep(moments[i], moments[i + 1], ops[i], oks[i], fine)
  }

  /** What is on record after some operations: the contents of the last deploy that left
      everything in place, as each deploy does that completes. */
  ghost function OnRecord(start: map<string, string>, ops: seq<Op>, moments: seq<Snapshot>): map<string, string>
    requires |moments| == |ops| + 1
  {
    if ops == [] then start
    else
      var n := |ops| - 1;
      if ops[n].DeployOp? && ops[n].src.Some? && InPlace(moments[n + 1], Resolve(ops[n].src.value))
      then Contents(Resolve(ops[n].src.value))
      else OnRecord(start, ops[..n], moments[..n + 1])
  }

  lemma RecordOfStep(a: Snapshot, b: Snapshot, op: Op, ok: bool, fine: bool)
    requires OpStep(a, b, op, ok, fine)
    ensures b.recorded == if op.DeployOp? && op.src.Some? && InPlace(b, Resolve(op.src.value))
                          then Contents(Resolve(op.src.value)) else a.recorded
    ensures op.DeployOp? && op.src.Some? && ok ==> InPlace(b, Resolve(op.src.value))
  {
  }

  lemma {:induction false} RecordOfRun(start: Snapshot, ops: seq<Op>, moments: seq<Snapshot>, oks: seq<bool>, fine: bool, n: nat)
    requires RunOf(start, ops, moments, oks, fine) && n <= |ops|
    ensures moments[n].recorded == OnRecord(start.recorded, ops[..n], moments[..n + 1])
    ensures n > 0 && ops[n - 1].DeployOp? && ops[n - 1].src.Some? && oks[n - 1] ==>
              InPlace(moments[n], Resolve(ops[n - 1].src.value))
  {
    if n > 0 {
      RecordOfRun(start, ops, moments, oks, fine, n - 1);
      assert ops[..n][..n - 1] == ops[..n - 1] && moments[..n + 1][..n] == moments[..n];
      RecordOfStep(moments[n - 1], moments[n], ops[n - 1], oks[n - 1], fine);
    }
  }

  /** Safety over runs: whatever happens in between, every deploy is safe against exactly what
      the last deploy before it that left everything in place wrote. */
  lemma DeploysAreSafe(start: Snapshot, ops: seq<Op>, moments: seq<Snapshot>, oks: seq<bool>, fine: bool, i: nat)
    requires RunOf(start, ops, moments, oks, fine) && i < |ops| && ops[i].DeployOp?
    ensures SafeDeploy(moments[i].files, moments[i + 1].files, OnRecord(start.recorded, ops[..i], moments[..i + 1]), ops[i].src)
  {
    RecordOfRun(start, ops, moments, oks, fine, i);
    assert OpStep(moments[i], moments[i + 1], ops[i], oks[i], fine);
  }

  /** Two completed deploys of the same sources with nothing in between: the second deletes
      nothing and changes no file. */
  lemma RedeployIsIdle(a: Snapshot, b: Snapshot, c: Snapshot, src: Option<Sources>, fine: bool)
    requires Deployed(a, b, src, true, fine) && Deployed(b, c, src, true, fine)
    ensures c.files == b.files
  {
    if src.Some? {
      assert Settled(b.files, b.manifest, Resolve(src.value));
    }
  }

  /** What becomes of a deployed file that the next, fault-free, deploy does not compose, whatever
      was edited in between: it goes exactly if it was not a default and is still as deployed. */
  lemma DroppedFile(a: Snapshot, files: BehaviorFiles, edited: map<string, string>, b: Snapshot, src: Sources, ok: bool, p: string)
    requires InPlace(a, files) && p in files && p !in Resolve(src) && Resolve(src) != map[]
    requires Deployed(a.(files := edited), b, Some(src), ok, true)
    ensures p in b.files <==> p in edited && (files[p].source == FromDefault || edited[p] != files[p].content)
    ensures p in b.files ==> b.files[p] == edited[p]
  {
    var m := a.manifest.value;
    assert Lists(m, p);
    var i :| 0 <= i < |m| && m[i].path == p;
    assert Records(m[i], files);
    var stale := StalePaths(m, Resolve(src), edited);
    if p in stale {
      var j :| 0 <= j < |m| && Stale(m[j], Resolve(src), edited) && m[j].path == p;
      assert Records(m[j], files);
    }
    if p in edited && files[p].source != FromDefault && edited[p] == files[p].content {
      assert Stale(m[i], Resolve(src), edited);
    }
    assert b.files == Replaced(a.(files := edited), Resolve(src));
  }

  /** Plays any operations on a workspace. */
  method Play(ws: AgentWorkspace, ops: seq<Op>) returns (ghost moments: seq<Snapshot>, oks: seq<bool>)
    requires ws.Valid()
    requires forall i :: 0 <= i < |ops| && !ops[i].DeployOp? ==> ops[i].path != MANIFEST_FILE
    modifies ws
    ensures ws.Valid() && RunOf(old(ws.Now()), ops, moments, oks, FineFrom(ws.script, old(ws.clock)))
    ensures moments[|ops|] == ws.Now()
  {
    ghost var fine := FineFrom(ws.script, ws.clock);
    moments, oks := [ws.Now()], [];
    for i := 0 to |ops|
      invariant ws.Valid() && ws.clock >= old(ws.clock)
      invariant RunOf(old(ws.Now()), ops[..i], moments, oks, fine) && moments[i] == ws.Now()
    {
      ghost var before := moments;
      var ok := PlayOne(ws, ops[i], fine);
      moments, oks := moments + [ws.Now()], oks + [ok];
      RunSnoc(old(ws.Now()), ops, i, before, ws.Now(), oks, fine);
    }
    assert ops[..|ops|] == ops;
  }

  method PlayOne(ws: AgentWorkspace, op: Op, ghost fine: bool) returns (ok: bool)
    requires ws.Valid() && (!op.DeployOp? ==> op.path != MANIFEST_FILE) && (fine ==> FineFrom(ws.script, ws.clock))
    modifies ws
    ensures ws.Valid() && ws.clock >= old(ws.clock) && OpStep(old(ws.Now()), ws.Now(), op, ok, fine)
  {
    ok := true;
    match op
    case EditOp(path, content) => ws.Edit(path, content);
    case EraseOp(path) => ws.Erase(path);
    case DeployOp(src, rt) => ok := ws.Deploy(src, rt);
  }

  lemma RunSnoc(start: Snapshot, ops: seq<Op>, i: nat, moments: seq<Snapshot>, next: Snapshot, oks: seq<bool>, fine: bool)
    requires i < |ops| && |oks| == i + 1 && RunOf(start, ops[..i], moments, oks[..i], fine)
    requires OpStep(moments[i], next, ops[i], oks[i], fine)
    ensures RunOf(start, ops[..i + 1], moments + [next], oks, fine)
  {
    var longer, more := ops[..i + 1], moments + [next];
    forall k | 0 <= k < i + 1
      ensures OpStep(more[k], more[k + 1], longer[k], oks[k], fine)
    {
      if k < i {
        assert OpStep(moments[k], moments[k + 1], ops[..i][k], oks[..i][k], fine);
      }
    }
  }

  /** Deploys the same sources twice. */
  method DeployTwice(ws: AgentWorkspace, src: Option<Sources>, rt: Runtime)
      returns (first: bool, second: bool, ghost settled: Snapshot)
    requires ws.Valid()
    modifies ws
    ensures var fine := FineFrom(ws.script, old(ws.clock));
            && Deployed(old(ws.Now()), settled, src, first, fine) && Deployed(settled, ws.Now(), src, second, fine)
            && (first && second ==> ws.files == settled.files)
            && (fine && src.Some? && Resolve(src.value) != map[] ==>
                  first && second && ws.files == Replaced(old(ws.Now()), Resolve(src.value)))
  {
    ghost var fine, start := FineFrom(ws.script, ws.clock), ws.Now();
    first := ws.Deploy(src, rt);
    settled := ws.Now();
    second := ws.Deploy(src, rt);
    if first && second {
      RedeployIsIdle(start, settled, ws.Now(), src, false);
    }
  }
}
