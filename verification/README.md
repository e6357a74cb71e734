# CongaLine: a verified model

CongaLine runs AI agents in containers on hosts it manages. Each agent has its own Docker
network, its own rules in the host's shared `DOCKER-USER` chain, its own egress proxy with an
allowlist, its own workspace files, and bindings to chat channels that a router dispatches by a
generated table. This project models the parts of the Go code whose behaviour over many steps is
hard to see from one body, and proves what they keep.

The model follows the code's form. Loops, accumulators and objects updated in place are methods
and classes, each tied by its `ensures` to a specification function or to the state before; the
properties are lemmas about those functions, or methods that drive whole runs. Expressions and
printers are functions with a reader as their partner. Failing transports, lost replies, swallowed
errors and edits by others are inputs (a script of events) that every theorem quantifies over.

| module | repository part |
|---|---|
| `Network`, `Iptables`, `ChainRuns`, `Fleet` | ports, address plans, the ordered rule chain, interleaved editors, whole-fleet runs |
| `Reconcile` | moving an agent's network to its planned subnet: prepare, then commit |
| `Policy`, `Enforcement`, `LuaText`, `Drift` | merge, allowlist matching, the proxy filter's tables, pre-flight, drift reports |
| `BootstrapModel`, `BootstrapGrowth`, `Bootstrap` | resumable bootstrap of a manifest, and what it adds to a fleet |
| `Workspace` | overlay deployment with deletion of what was deployed before |
| `Routing`, `Channels` | bindings, the routing tables, the channel state machine |
| `Mirror`, `Guard`, `Shell`, `Systemd`, `OAuth` | tree mirroring, the reserved-key guard, quoting, credential blobs |
| `Strings`, `Sequences`, `Optional` | Go string operations, byte order, sorting, lists |

`dafny verify dfyconfig.toml` checks everything.

## Where the code falls short of its description

Each of these is proved: a family of inputs that shows it, and the exact condition under which the
code does meet the description.

- **A wildcard lets its own base through.** The proxy's Lua filter accepts a host equal to a suffix
  without its dot (`pkg/policy/templates/envoy-config.yaml.tmpl:53`), so `*.example.com` admits
  `example.com`. The matcher (`pkg/policy/policy.go:407-417`), the comment at
  `pkg/common/egress_check.go:182-185` and `product-knowledge/standards/egress-controls.md:183-190`
  say it does not. `Enforcement.BareHostPassesFilter`, `Enforcement.PreflightAgreesIff`.
- **A swallowed listing lets a commit begin with a foreign endpoint attached.** Both endpoint
  listings end in `|| true`. A commit starts exactly when the second one comes back without a
  foreign endpoint: because none is attached, or because Docker refused the listing and the refusal
  was swallowed. In the second case, with an endpoint attached and nothing going wrong afterwards,
  the agent ends up down on a network that cannot be removed. `Reconcile.Prepare` states the
  condition, `Reconcile.ReconcileAgentNetwork` carries it (`Admits`, `BlindCommit`).
- **Removing an unconfigured channel reports success and keeps the bindings.** Provisioning can
  bind a platform that is not configured; `RemoveChannel` returns early for such a platform.
  `Channels.RemovedExactly` states the exact condition, `Channels.RemovalSkipsUnconfigured` the run.
- **Container names can collide.** The container of an agent called `egress-x` has the name of the
  proxy of agent `x`. `Reconcile.ContainerNamesDisjoint`.
- **A drift report can be a bare hash mismatch.** A list of blank entries canonicalises to an empty
  list, no list to none; they differ only in the hash. `Drift.BareHashMismatchIff`; valid lists,
  merged ones included, never do this (`Drift.ValidatedNeverBareHash`).
- **A manifest that is only a policy runs once.** Its second run fails with nothing to do.
  `BootstrapModel.OnlyPolicyManifestsDoNotRepeat`.
- **The guard and the validator differ on keys that span lines.** `Guard.TwoLineKey`,
  `Guard.AgreeIff`.
- **The precondition written above `SystemdExecStart` is not enough.** It leaves out the apostrophe,
  line ends, the empty element and a lone semicolon. `Systemd.DocumentedFallsShort`,
  `Systemd.TwoBecomeOne`; the exact condition is `Systemd.SplitsBackIff`.
- **A restore can replace an existing blob** where a failed existence probe is answered with
  "absent", as the closure at `pkg/provider/remoteprovider/provider.go:858-861` does; the one at
  `pkg/provider/awsprovider/channels.go:594-608` answers "present". `OAuth.Agent.RestoreIsColdOnly`
  states exactly which files change, `OAuth.BlindRestoreOverwrites` the failing family.
- **Of an IPv6 literal the filter sees only the front.** The filter cuts the authority at its first
  colon (`pkg/policy/templates/envoy-config.yaml.tmpl:44`), so it never lets such an address
  through, while pre-flight can find its text covered by a wildcard. `Enforcement.PreflightAgreesIff`,
  `Enforcement.CoveredAddressIsDenied`.
- **A file that replaces a directory, or the reverse, never reaches the deployed tree**, however
  often it is synced, once a file lies beneath. `Mirror.MirrorsIff`, `Mirror.SyncAgain`,
  `Mirror.FileAgainstDirectory`.

## Model

| member | source | states |
|---|---|---|
| `Network.PlansAreDisjoint` | pkg/provider/managedhost/network.go:36-49 | Every address of a plan lies in the plan's /24, gateway, proxy and agent differ, and plans for different ports share no address |
| `Network.PlanAddresses` | pkg/provider/managedhost/network.go:36-49 | In the plan's subnet the gateway is host 1, the agent host 2, the proxy host 3; no plan reaches into 10.0.0.0/24 or 172.16.0.0/12 |
| `Network.NextAvailablePort` | pkg/common/ports.go:9-17 | One above the highest port in use, the base port for an empty fleet; no agent holds the port returned |
| `Iptables.AddRulesCmd` | pkg/provider/iptables/rules.go:40-54 | Errors for a malformed address or CIDR; otherwise one check-before-insert per rule, last rule of the list first |
| `Iptables.RemoveRulesCmd` | pkg/provider/iptables/rules.go:60-76 | An empty address gives no commands, malformed arguments errors, otherwise one delete per rule in list order |
| `Iptables.EnsureStep` | pkg/provider/iptables/rules.go:40-54 | One check-before-insert on a chain where the agent's rules are the list from some level on: the rule appears on top if it was missing, foreign rules stay below, no other address changes |
| `Iptables.DeleteStep` | pkg/provider/iptables/rules.go:60-76 | One delete removes exactly the topmost rule of the agent when it is the one named, and otherwise nothing; foreign rules and other addresses are unaffected |
| `Iptables.AddPrefix` | pkg/provider/iptables/rules.go:40-54 | An insertion interrupted after any n commands, from any level, leaves a suffix of the list of at least n rules |
| `Iptables.RemovePrefix` | pkg/provider/iptables/rules.go:60-76 | A removal interrupted after any n commands leaves a suffix of the list that lacks at least the first n rules |
| `Iptables.CheckIsExact` | pkg/provider/iptables/rules.go:81-94 | All five rules are found if and only if none of the agent's rules is missing |
| `Iptables.DockerUser.AddRules` | pkg/provider/iptables/rules.go:101-107 | Restores the whole list in order from any suffix of it, or changes nothing when an argument is malformed |
| `Iptables.DockerUser.RemoveRules` | pkg/provider/iptables/rules.go:111-117 | Leaves none of the agent's rules, from any suffix; malformed or empty arguments change nothing |
| `Iptables.DockerUser.CheckRules` | pkg/provider/iptables/rules.go:121-127 | True if and only if every rule of the list is in the chain; false on malformed arguments |
| `Iptables.EvalSuffix` | pkg/provider/iptables/rules.go:24-33 | First-match evaluation of any non-empty suffix drops everything the policy forbids; of the whole list it returns everything the policy permits |
| `Iptables.EvalOwn` | pkg/provider/iptables/rules.go:24-33 | Rules keyed on other sources never decide a packet |
| `ChainRuns.AdvanceInv` | pkg/provider/iptables/rules.go:40-76 | One command of one editor keeps the suffix shape of its own address and does not touch any other; the DROP goes only with the last delete |
| `ChainRuns.ReachableInv` | pkg/provider/iptables/rules.go:24-76 | After any interleaving of Add and Remove programs, each abandoned or restarted between any two commands, every address's rules are a suffix of its list and all foreign rules stay below |
| `ChainRuns.CompletedPrograms` | pkg/provider/iptables/rules.go:40-94 | A completed Add has the whole list, a completed Remove nothing, and the check answers exactly whether the list is whole, in every reachable chain |
| `ChainRuns.AddIsAt` | pkg/provider/iptables/rules.go:40-107 | From the actions alone: an Add begun anywhere in a run, with nothing begun for its address since, is past as many commands as it had turns among all the others'; after five its five rules stand in order |
| `ChainRuns.RemoveIsAt` | pkg/provider/iptables/rules.go:60-117 | The same for a Remove; after five turns no rule of its address is left |
| `ChainRuns.ReachableVerdict` | pkg/provider/iptables/rules.go:24-33 | In every reachable chain: whole list means subnet, established and DNS return and all else drops; any rule left means nothing forbidden passes; none left means foreign rules decide alone |
| `ChainRuns.FailClosedWhileEditing` | pkg/provider/iptables/rules.go:36-54 | From its first command on an Add drops whatever the policy forbids |
| `Fleet.ReachableAgents` | pkg/common/ports.go:9-17 | Over every run of provisions, removals and rule edits from an empty fleet, live ports and names are pairwise distinct and bounded by the number of provisions |
| `Fleet.StepRecords` | pkg/common/ports.go:9-17 | A provision leaves the agent of that name on the next port, a removal none of that name, and both everybody else as before |
| `Fleet.PlanningSucceeds` | pkg/provider/managedhost/network.go:36-49 | The next provision finds a plan if and only if no live agent holds the last port of the scheme or one beyond; the first 256 provisions of any run all do |
| `Fleet.ChainOfRun` | pkg/provider/iptables/rules.go:101-117 | The chain of a fleet run is the chain of its rule edits alone |
| `Fleet.FleetIsolation` | pkg/provider/iptables/rules.go:24-54 | In every reachable fleet two planned agents have disjoint subnets, and while any rule of one agent is in the chain its new non-DNS packets to any address of the other's subnet are dropped, whatever foreign rules there are |
| `Fleet.IsolatedOnceAdded` | pkg/provider/iptables/rules.go:24-107 | The same from the operations alone: one turn after an agent's Add was begun, with nothing begun for its address since, its new non-DNS packets to any other agent's subnet are dropped |
| `Reconcile.PreparationIsHarmless` | pkg/provider/managedhost/network_reconcile.go:57-88 | No inspection, listing or foreign disconnect, delivered or not, takes the agent, its proxy, its rules or its subnet away |
| `Reconcile.DisconnectForeign` | pkg/provider/managedhost/network_reconcile.go:64-73 | Only endpoints other than the agent's and the proxy's are touched; without faults all of them go but the unclearable ones |
| `Reconcile.Prepare` | pkg/provider/managedhost/network_reconcile.go:57-88 | Under any faults it succeeds exactly when both listings come back and the second shows no foreign endpoint, none being attached or its refusal being swallowed; without faults it fails exactly when a foreign endpoint cannot be cleared, and names one |
| `Reconcile.Commit` | pkg/provider/managedhost/network_reconcile.go:90-129 | Flush, stop, remove agent, remove proxy, remove network, create network, in that order; the rules of the agent's address are gone exactly if the flush got through while its container was there; success means the planned subnet, migrated means nothing is attached |
| `Reconcile.FlushIsOwn` | pkg/provider/managedhost/network_reconcile.go:90-96 | The flush takes away every rule of its address and no rule of another |
| `Reconcile.FlushedMeans` | pkg/provider/managedhost/network_reconcile.go:90-96 | A flush that got through leaves the agent's address without a rule; in any case only rules of that address go |
| `Reconcile.OthersKeepTheirRules` | pkg/provider/managedhost/network_reconcile.go:90-96 | After any run, under any faults, every other agent's rules are as before, and foreign rules still stand below in their order |
| `Reconcile.CreateAgentNetwork` | pkg/provider/managedhost/network_reconcile.go:122-129 | A nil error means the planned subnet; an existing network is left alone and reported |
| `Reconcile.ReconcileAgentNetwork` | pkg/provider/managedhost/network_reconcile.go:36-119 | For every pattern of faults and arrivals: without a commit agent, proxy, rules and subnet are as at entry; a commit starts exactly when a second listing comes back without a foreign endpoint, and what follows if one is attached all the same; a committed run leaves no rule of the old address exactly if its flush got through while the container was there, as every clean migration of a running agent does; a nil error implies the planned subnet; migrated implies nothing attached; the exact outcome of every fault-free run |
| `Reconcile.ConvergeAfterAborts` | pkg/provider/managedhost/network_reconcile.go:36-119 | From any state, one fault-free ghost-free run succeeds and leaves exactly what a clean run does, migrated exactly when there was another subnet, with no rule of the old address left if the agent was running; a further run only inspects |
| `Reconcile.ContainerNamesDisjoint` | pkg/policy/egress.go:74-76 | Container and proxy names of two agents differ, except exactly when one agent is called egress- followed by the other's name |
| `Policy.MergeMeaning` | pkg/policy/policy.go:298-329 | Up to case the agent reaches (global allowed ∪ own allowed) minus (global blocked ∪ own blocked), for every combination of absent and empty sections; the mode is the override's where it has an egress section, the global one where it has none, and enforce where that is empty |
| `Policy.UnionKeys` | pkg/policy/policy.go:335-356 | The union has exactly the keys of both lists, on the shortcut for an empty second list too |
| `Policy.FirstOfEachKeys` | pkg/policy/policy.go:335-356 | De-duplication keeps every key once |
| `Policy.FirstOfEachPicks` | pkg/policy/policy.go:335-356 | What is kept is the first entry of every key, as it is written and in order |
| `Policy.UnionDomains` | pkg/policy/policy.go:335-356 | Order-preserving case-insensitive union; the base list itself when there is nothing to add, a new list otherwise |
| `Policy.PolicyFile.NormalizeDefaults` | pkg/policy/policy.go:136-145 | The empty mode becomes enforce in the global and in every agent's egress section, and nothing else changes |
| `Policy.PolicyFile.MergeForAgent` | pkg/policy/policy.go:298-329 | A new file of entirely new parts that holds the merged egress, routing (models, fallback, cost limits, task rules) and posture sections; this file is not written to |
| `Policy.EffectiveKeys` | pkg/policy/egress.go:56-71 | Up to case the effective list is what is allowed less what is blocked |
| `Policy.UnblockedPicks` | pkg/policy/egress.go:56-71 | What stays are the entries whose key is not blocked, as they are written and in order |
| `Policy.EffectiveAllowedDomains` | pkg/policy/egress.go:56-71 | The allowed entries in order, without those blocked up to case |
| `LuaText.PassesAreOneMap` | pkg/policy/egress.go:15-20 | The three replacement passes equal one map per character |
| `LuaText.LuaRoundTrip` | pkg/policy/egress.go:15-20 | Read as a quoted literal (section 2.1 of the Lua 5.1 Reference Manual) the escaped text is the original, if and only if it has no carriage return |
| `Enforcement.SplitDomains` | pkg/policy/egress.go:102-121 | The template's two lists are the lower-cased, escaped exact entries and wildcard bases, in order |
| `Enforcement.ValidDomainIff` | pkg/policy/policy.go:259-283 | A domain passes if and only if it is not empty and is letters, digits, hyphens and dots, with or without a leading wildcard |
| `Enforcement.SplitMembers` | pkg/policy/egress.go:102-121 | A name is in the exact list, or a base in the suffix list, if and only if an allowed entry says so up to case |
| `Enforcement.TablesReadBack` | pkg/policy/templates/envoy-config.yaml.tmpl:38-43 | Read back by Lua, the generated tables are the exact entries and the dotted bases |
| `Enforcement.HostMatchesAllowlist` | pkg/common/egress_check.go:172-193 | True if and only if some entry of the allowlist matches the host by policy.MatchDomain |
| `Enforcement.CheckOverlayEgress` | pkg/common/egress_check.go:32-65 | Reports exactly the uncovered hosts of the overlay, each once up to case, as and in the order first mentioned |
| `Enforcement.CheckCustomConfigEgress` | pkg/common/egress_check.go:97-113 | The same over all custom layers, with one memory of what was seen |
| `Enforcement.UncoveredPicks` | pkg/common/egress_check.go:32-65 | What is reported before de-duplication are the hosts no entry covers, as written and in order |
| `Enforcement.DeclaredMeaning` | pkg/common/egress_check.go:32-50 | The hosts of an overlay are the model's and the subagent's, where there are any |
| `Enforcement.SplitAgrees` | pkg/policy/egress.go:102-121 | A host is covered by the patterns if and only if its lower-cased form is an exact entry or ends in a dot and a base |
| `Enforcement.FilterDecides` | pkg/policy/templates/envoy-config.yaml.tmpl:44-60 | For every host, addresses in brackets included, the generated filter lets through exactly when what stands before the authority's first colon is covered or is the base of an allowed wildcard |
| `Enforcement.PreflightAgreesIff` | pkg/common/egress_check.go:172-193 | For every section with a valid mode and valid domains, blocked ones among the allowed included, and every host: on a name pre-flight and filter agree if and only if it is not an otherwise uncovered base of an allowed wildcard; an address with colons passes if and only if a wildcard covers its front, so an IPv6 literal never does and there they agree if and only if its text is uncovered |
| `Enforcement.MergedPreflightAgreesIff` | pkg/policy/policy.go:298-329 | The same for the merge of the global section and an agent's own, whatever either blocks of the other |
| `Enforcement.FilterOfMerge` | pkg/policy/egress.go:102-128 | The filter generated for an agent lets a host through if and only if the patterns (global allowed ∪ own allowed) minus (global blocked ∪ own blocked) admit what the filter takes for the host: as an entry, as a wildcard's base, or below one |
| `Enforcement.EffectiveIsValid` | pkg/policy/egress.go:56-71 | Every effective entry of a section of valid lists, or of none, is a valid domain without a carriage return |
| `Enforcement.MergedIsUsable` | pkg/policy/policy.go:298-329 | Sections with a valid mode and valid domains merge to one |
| `Enforcement.MergedIsValidIff` | pkg/policy/policy.go:208-222 | The merge of two validated sections would itself pass validation if and only if neither blocks what the other allows |
| `Enforcement.CoveredAddressIsDenied` | pkg/policy/templates/envoy-config.yaml.tmpl:44-60 | Every address with colons whose text a wildcard covers: pre-flight has nothing to report and the filter denies it |
| `Enforcement.BareHostPassesFilter` | pkg/policy/templates/envoy-config.yaml.tmpl:51-55 | For every base domain, a policy with that one wildcard lets the base through although no pattern covers it |
| `Drift.CanonDomains` | pkg/policy/manifest.go:121-140 | Trims, folds and de-duplicates, sorted; no list for an empty one |
| `Drift.CanonKeyIgnores` | pkg/policy/manifest.go:121-140 | Neither the space around a domain nor its case tells it from another |
| `Drift.CanonIsSorted` | pkg/policy/manifest.go:121-140 | The canonical list is strictly sorted and holds exactly the non-blank keys |
| `Drift.CanonOfCanon` | pkg/policy/manifest.go:49-55 | A canonical list means what the list did; canonicalising it again changes nothing if and only if the list was not all blank |
| `Drift.DiffManifests` | pkg/policy/manifest.go:171-225 | Nothing without a desired policy, one line when the host has none, else mode, allowed and blocked lines, and one line with the two hashes when only they differ |
| `Drift.EmptyReportIff` | pkg/policy/manifest.go:171-225 | For any two manifests, absent ones included, the report is empty if and only if none is desired, or one is deployed that means the same and has no other hash |
| `Drift.AbsentIsReported` | pkg/policy/manifest.go:176-183 | A host without a manifest is reported as missing it, in one line about the whole |
| `Drift.AbsentModeIsEnforce` | pkg/policy/manifest.go:104-117 | A policy without a mode has the manifest of the same policy in mode enforce |
| `Drift.DomainDiffExact` | pkg/policy/manifest.go:229-271 | Domain lines are exactly the symmetric difference, each domain once: sorted missing ones, then sorted extra ones |
| `Drift.DiffThenPatch` | pkg/policy/manifest.go:171-225 | Acting on the report of any two manifests turns the deployed meaning into the desired one |
| `Drift.EmptyDiffIff` | pkg/policy/manifest.go:171-225 | The report on two built manifests is empty if and only if their canonical forms are equal |
| `Drift.CanonicalIff` | pkg/policy/manifest.go:104-117 | Two policies have the same canonical form if and only if they mean the same and no all-blank list stands against an absent one |
| `Drift.BareHashMismatchIff` | pkg/policy/manifest.go:210-225 | The hash line appears if and only if the policies mean the same but an all-blank list stands against an absent one; it shows the two hashes and stands alone |
| `Drift.InSyncMeansSameDecisions` | pkg/policy/manifest.go:171-225 | For sections of valid lists, or none, an empty report means the same mode, the same decision for every host and the same two proxy lists |
| `Drift.MergedInSync` | pkg/policy/manifest.go:171-225 | The same between what the policy merges to for an agent and what was deployed for it, whatever the sections block of each other |
| `Drift.ValidatedNeverBareHash` | pkg/policy/manifest.go:210-225 | Between sections of valid lists, merged ones included, or none, the hash line never appears |
| `BootstrapModel.SuccessFinishes` | pkg/manifest/bootstrap.go:45-125 | A successful uninterrupted run leaves a state in which everything the manifest names is there |
| `BootstrapModel.FinishedStays` | pkg/manifest/bootstrap.go:45-125 | A run on a finished state changes nothing and succeeds exactly when it has a step to run |
| `BootstrapModel.SkipDone` | pkg/manifest/bootstrap.go:75-120 | Steps with nothing left to change can be skipped without changing the outcome |
| `BootstrapModel.OnlyPolicyManifestsDoNotRepeat` | pkg/manifest/bootstrap.go:45-73 | A successful run can be repeated with the same outcome, unless the manifest is nothing but a policy: then the second run fails |
| `BootstrapModel.BindsOrderly` | pkg/manifest/bootstrap.go:251-285 | A pass of bindings, wherever it stops, gives nobody a second binding of a platform, or one of a platform that is not configured |
| `BootstrapGrowth.ProvisionGrows` | pkg/manifest/bootstrap.go:178-194 | A provision gives the agent the type and identity of its manifest entry and a port nobody holds |
| `BootstrapGrowth.ProvisionAllGrows` | pkg/manifest/bootstrap.go:166-201 | So does the uninterrupted pass over any list of entries: ports that were distinct stay distinct |
| `BootstrapGrowth.WantsMeaning` | pkg/manifest/bootstrap.go:251-265 | The bindings wanted are exactly those written in the manifest's channels, each under its platform |
| `BootstrapGrowth.SecretsMeaning` | pkg/manifest/bootstrap.go:203-222 | With distinct agents the secrets set are exactly those of the manifest's entries, under their names |
| `BootstrapGrowth.FinishedContents` | pkg/manifest/bootstrap.go:45-125 | A finished state grown from another holds every agent, secret with its value, platform, binding and the setup of the manifest, and its policy unless there was one |
| `Bootstrap.BootstrapAgents` | pkg/manifest/bootstrap.go:166-201 | Provisions what is missing; distinct ports stay distinct and new agents carry the type and identity of the manifest entry of their name; stopped anywhere, a pass over the result gives what one whole pass would have given |
| `Bootstrap.BootstrapSecrets` | pkg/manifest/bootstrap.go:203-222 | Sets every agent's secrets; a partial pass is absorbed by a later whole one |
| `Bootstrap.BootstrapChannels` | pkg/manifest/bootstrap.go:224-249 | Adds the platforms that were not configured when the step began; stopped anywhere, a later pass completes it |
| `Bootstrap.BootstrapBindings` | pkg/manifest/bootstrap.go:251-285 | Binds what is not bound; stopped anywhere, a later pass ends where one whole pass ends; on bound agents nothing is called |
| `Bootstrap.Bootstrap` | pkg/manifest/bootstrap.go:45-125 | Under all faults the state only grows, by what the manifest says: old agents keep name, type, port and bindings, new ones have its type and identity and a port of their own, bindings, secrets and channels come from it; a later run from the state left makes what it would have made of the starting state; success is the uninterrupted outcome; a finished state sees no provision, add-channel or bind call |
| `Bootstrap.FailAndResume` | pkg/manifest/bootstrap.go:45-125 | After any number of runs with any faults, a run that succeeds, or one without faults, ends in the state one uninterrupted run makes of the first state, agents, ports, secrets, channels, bindings and policy, and at every moment the state has only grown by what the manifest says; for every manifest |
| `Workspace.ResolveBehaviorFiles` | pkg/common/behavior.go:40-98 | Each behavior file comes from the agent's directory, else the defaults; USER.md from its template, with variables replaced, when no plain one exists |
| `Workspace.ResolvesByPrecedence` | pkg/common/behavior.go:40-98 | The agent's own file goes before the default, whatever the defaults are; without one the default stands in, marked as such; for USER.md the two templates do |
| `Workspace.RendersName` | pkg/common/behavior.go:76-98 | A template with either marker for the agent's name at any places has the name at those places |
| `Workspace.RendersVariable` | pkg/common/behavior.go:76-98 | A template with a variable at any places has its value at those places |
| `Workspace.BehaviorNamesUnprotected` | pkg/common/overlay.go:54-73 | None of the three names a deploy can write is protected under any runtime |
| `Workspace.ProtectsMemory` | pkg/common/overlay.go:20-73 | Everything under memory/ and logs/, MEMORY.md and the manifest file are protected under every runtime |
| `Workspace.BuildManifest` | pkg/common/overlay.go:154-164 | The entries are exactly the files, each once, with hash and source |
| `Workspace.ReconcileDeletions` | pkg/common/overlay.go:128-151 | Exactly the recorded agent or overlay files that are no longer composed and still hold what was recorded; none without a manifest |
| `Workspace.ComposeAgentWorkspaceFiles` | pkg/common/behavior.go:105-140 | Fails exactly when there are no files; otherwise the resolved files, a manifest that describes them and the stale paths |
| `Workspace.DeletionsAreSafe` | pkg/common/overlay.go:128-151 | Whatever a truthful manifest makes stale holds what was recorded and is not composed any more |
| `Workspace.DroppedFile` | pkg/common/overlay.go:128-151 | A deployed file that the next fault-free deploy does not compose goes exactly if it was not a default and is still as deployed; otherwise it stays as it is |
| `Workspace.AgentWorkspace.Deploy` | pkg/provider/localprovider/provider.go:1872-1915 | A file is lost only if it held what the recorded deploy wrote and is no longer composed; no path outside the three names is touched; success leaves contents and matching manifest, failure leaves both too or records nothing; exact result without faults |
| `Workspace.Play` | pkg/provider/localprovider/provider.go:1872-1915 | Any operations make a run: the moments around them start at the old workspace, end at the new one, and each operation leads from one to the next as an edit or as a deploy does |
| `Workspace.DeploysAreSafe` | pkg/provider/localprovider/provider.go:1872-1915 | In every run of deploys, completed or not, and agent edits, each deploy loses only files that held exactly what the last deploy before it that left everything in place wrote |
| `Workspace.RecordOfRun` | pkg/provider/localprovider/provider.go:1872-1915 | At every moment of a run what is on record is what the last deploy wrote that left everything in place, as every completed one does |
| `Workspace.RedeployIsIdle` | pkg/common/overlay.go:128-164 | Of two completed deploys of the same sources with nothing in between, the second changes no file |
| `Workspace.DeployTwice` | pkg/provider/localprovider/provider.go:1872-1915 | Two deploys in a row, each as a deploy does; if both complete the second changes no file, and without faults both complete with the exact result of one |
| `Routing.PlatformsDoNotCollide` | pkg/channels/slack/slack.go:15-46 | No ID is valid on two platforms, or for two agent types of one |
| `Routing.SlackIDs` | pkg/channels/slack/slack.go:15-46 | A Slack ID is U for a user and C for a channel followed by eight to twelve capital letters or digits, and nothing else is |
| `Routing.TelegramIDs` | pkg/channels/telegram/telegram.go:15-72 | A Telegram ID is five to fifteen digits without a leading zero for a user, a minus and five to fifteen digits for a group, and nothing else is |
| `Routing.PathsDoNotCollide` | pkg/common/routing.go:48-59 | No webhook path serves two platforms |
| `Routing.WebhookPathsAre` | pkg/common/routing.go:48-59 | Under Hermes the path is /webhooks/ and the platform, otherwise the platform and /events |
| `Routing.LoopbackPath` | pkg/common/routing.go:30-63 | On the loopback the path is Hermes's exactly if Hermes is the agent's own runtime, or the global one while it has none |
| `Routing.FilterBindings` | pkg/channels/registry.go:56-64 | The bindings in order, without those of the platform |
| `Routing.FilteredMembers` | pkg/channels/registry.go:56-64 | Exactly the bindings of other platforms stay; one per platform stays one per platform |
| `Routing.FilteredPicks` | pkg/channels/registry.go:56-64 | The bindings that stay do so in order |
| `Routing.ParsePrinted` | pkg/channels/registry.go:37-48 | Parsing platform:id gives the platform and the ID back, for every ID, colons included |
| `Routing.ParsesExactly` | pkg/channels/registry.go:37-48 | Parsing accepts exactly a registered platform, a colon and any ID, and returns those |
| `Routing.DeliveredTo` | pkg/common/routing.go:65-125 | In the bridge an agent is reached under its own name, on the gateway port where its runtime names none; on the loopback on its own port; agents of different names and ports never at one place |
| `Routing.GenerateRouting` | pkg/common/routing.go:65-125 | Fills the two tables in list order, skipping paused agents, unknown platforms and empty IDs, under a nil, a bridge or a loopback resolver |
| `Routing.RoutingMeaning` | pkg/common/routing.go:65-125 | A key is in a table if and only if an unpaused agent of that type is bound under it; its URL is that of the last such agent, in every topology |
| `Routing.RoutedExactly` | pkg/common/routing.go:65-125 | A non-empty ID is in the members table if and only if an unpaused user is bound under it on Slack or Telegram, in the channels table if and only if an unpaused team is |
| `Channels.SavedMembers` | pkg/provider/localprovider/provider.go:791-800 | Saving replaces the record of that name or adds one, keeps every other and the order by name |
| `Channels.SavedInPlace` | pkg/provider/localprovider/provider.go:791-800 | Saving under an existing name replaces that record in place |
| `Channels.Fleet.BindChannel` | pkg/provider/localprovider/channels.go:184-257 | The new state and the result are those of the state machine: six refusals in the code's order, else the binding is appended to that agent alone; the tables follow |
| `Channels.BindsExactly` | pkg/provider/localprovider/channels.go:184-257 | What a bind takes, exactly: a known, configured platform, an agent not yet on it, a runtime it works with, an ID valid for the agent's type; then the agent has that binding besides its others and nothing else changes |
| `Channels.BindRefusals` | pkg/provider/localprovider/channels.go:184-257 | Which refusal a bind meets: platform, tokens, agent, its bindings, its runtime, the ID, in that order |
| `Channels.BoundIsRouted` | pkg/provider/localprovider/channels.go:184-257 | A newly bound ID of an unpaused agent is in the table |
| `Channels.Fleet.UnbindChannel` | pkg/provider/localprovider/channels.go:260-305 | The state machine's step: three refusals, else exactly that agent loses exactly that platform; the tables follow |
| `Channels.UnbindsExactly` | pkg/provider/localprovider/channels.go:260-305 | Refused exactly without such a binding; otherwise the agent has no binding of the platform any more and nobody else changes |
| `Channels.Fleet.SetPaused` | pkg/provider/localprovider/provider.go:709-789 | The state machine's step: one agent's flag, unknown names refused; the tables follow |
| `Channels.Fleet.RemoveAgent` | pkg/provider/localprovider/provider.go:511-576 | The state machine's step: exactly the agent of that name goes; the tables follow |
| `Channels.RecordsChange` | pkg/provider/localprovider/provider.go:511-576 | A removal takes away the agent of that name, a provision saves a record over any old one of its name; everybody else and every secret stays |
| `Channels.Fleet.AddChannel` | pkg/provider/localprovider/channels.go:46-91 | The state machine's step: unknown platform, then a missing required secret, refused with nothing written; else every given secret of the platform is written |
| `Channels.AddsExactly` | pkg/provider/localprovider/channels.go:46-91 | Refused exactly for an unknown platform or a missing required secret; then each given secret of the platform is stored and no other changes |
| `Channels.CredentialsAre` | pkg/channels/slack/slack.go:48-54 | Slack is configured when its bot token and signing secret are there, Telegram when its bot token is; the optional ones never matter and nothing else is ever configured |
| `Channels.Fleet.RemoveChannel` | pkg/provider/localprovider/channels.go:95-157 | The state machine's step, and: no agent mentions the platform afterwards if and only if it was configured or none did before; it is not configured afterwards, other platforms stay as they were |
| `Channels.AddedConfigures` | pkg/provider/localprovider/channels.go:46-91 | A successful addition configures the platform and takes no other platform's configuration away |
| `Channels.RemovedExactly` | pkg/provider/localprovider/channels.go:95-157 | When a removal leaves no mention of the platform, exactly, and what it does to every platform's configuration |
| `Channels.RemovesExactly` | pkg/provider/localprovider/channels.go:95-157 | Without the platform's tokens nothing goes; otherwise every secret of the platform, the optional ones too, and every binding of it, and nothing else |
| `Channels.StepKeepsGood` | pkg/provider/localprovider/channels.go:46-305 | No operation breaks the order by name, gives an agent a second binding of a platform, or lets an invalid ID through |
| `Channels.ReachableFleet` | pkg/provider/localprovider/channels.go:46-305 | After any operations from an empty fleet each agent has at most one binding a platform, each valid for its type |
| `Channels.Run` | pkg/provider/localprovider/channels.go:46-305 | Performing any operations leaves exactly the state of the state machine's run, with the tables of its records |
| `Channels.RoutesOfGoodFleet` | pkg/common/routing.go:65-125 | In such a fleet an ID is routed if and only if an unpaused agent is bound to it: to the last such agent, at its port, on the path of the one platform the ID is valid for |
| `Channels.UnmentionedUnrouted` | pkg/provider/localprovider/channels.go:95-157 | Once no agent mentions a platform no table key is one of its IDs and no URL ends in one of its paths |
| `Channels.RemoveConfigured` | pkg/provider/localprovider/channels.go:95-157 | After removing a configured platform no agent mentions it, no table key is one of its IDs and no URL ends in one of its paths |
| `Channels.UnboundUndoesBound` | pkg/provider/localprovider/channels.go:184-305 | Unbinding after a bind that succeeded gives the state before the bind |
| `Channels.BindThenUnbind` | pkg/provider/localprovider/channels.go:184-305 | Records and tables return to what they were, whether the bind succeeded or not |
| `Channels.PausedIsUnrouted` | pkg/provider/localprovider/provider.go:709-757 | After pausing, a key is routed if and only if some other agent holds it; after unpausing, if and only if another holds it or this one is bound under it |
| `Channels.RemovalSkipsUnconfigured` | pkg/provider/localprovider/channels.go:107-109 | A provisioned binding to an unconfigured platform survives, routed, a removal that reports success |
| `Mirror.Deployed.CopyFrom` | internal/cmd/agent_behavior.go:228-244 | Every writable source file is written and every possible directory made, whatever parents-first order the walk has; nothing else changes |
| `Mirror.Deployed.Prune` | internal/cmd/agent_behavior.go:260-283 | Exactly the nested files that the source reports as not existing go |
| `Mirror.Deployed.SweepEmptyDirs` | internal/cmd/agent_behavior.go:284-288 | One pass over the directories, last listed first, leaves exactly those with a file beneath |
| `Mirror.Deployed.Sync` | internal/cmd/agent_behavior.go:216-289 | Nested files equal the source in presence and content if and only if no path is a file on one side and a directory on the other; other top-level files are untouched; no empty directory is left |
| `Mirror.Deployed.SyncIfPresent` | internal/cmd/agent_behavior.go:216-226 | Without a repository tree nothing happens; with one, a sync |
| `Mirror.MirrorsIff` | internal/cmd/agent_behavior.go:216-289 | The exact condition for a mirror, from the two trees before the sync |
| `Mirror.FileAgainstDirectory` | internal/cmd/agent_behavior.go:229-283 | For any names and contents, a source file against a deployed directory with a file in it, and the reverse, disagree in kind |
| `Mirror.SyncAgain` | internal/cmd/agent_behavior.go:216-289 | A further sync, as a sync does, leaves a mirror as it is; a disagreement of kinds stays for ever |
| `Guard.ReservedHasShape` | pkg/common/custom_config.go:89 | The reserved list meets everything the generator needs: distinct, newline-free names with no metacharacter but $ and . |
| `Guard.ValidateKeys` | pkg/common/custom_config.go:116-135 | An object is an error exactly when it has a reserved key, and names all of them sorted; blank and null pass; anything else is unparseable |
| `Guard.Classify` | pkg/common/custom_config.go:173-181 | A violation exactly for a reserved key, a warning exactly for an unparseable layer |
| `Guard.ValidateSources` | pkg/common/custom_config.go:146-166 | Stops at the first layer with a reserved key; absent and unparseable layers are passed over |
| `Guard.PatternReads` | pkg/provider/managedhost/guard.go:26-33 | Read as an extended regular expression the generated pattern is the list of keys |
| `Guard.PatternAcceptsExactly` | pkg/provider/managedhost/guard.go:26-33 | A whole line matches the pattern if and only if it is one of the keys |
| `Guard.UnquotedMissesDollar` | pkg/provider/managedhost/guard.go:28-31 | Without the quoting a key that starts with a dollar sign would never match |
| `Guard.GuardScript` | pkg/provider/managedhost/guard.go:25-55 | The script refuses to start if and only if some line of some key of a present, parsed layer is reserved |
| `Guard.Agree` | pkg/provider/managedhost/guard.go:25-55 | Over any layers the pre-deploy validator names an offender exactly when one has a reserved key, the guard refuses exactly when some line of some key is reserved; whatever the validator rejects the guard stops, and on newline-free keys it stops nothing else |
| `Guard.AgreeOnReserved` | pkg/common/custom_config.go:89 | The same for the key list the repository reserves |
| `Guard.AgreeIff` | pkg/common/custom_config.go:116-135 | Guard and validator agree on a layer if and only if no key that spans lines carries a reserved name without a reserved key beside it |
| `Guard.TwoLineKey` | pkg/provider/managedhost/guard.go:41-43 | For any text and any reserved name, the key made of both lines is stopped by the guard and passes the validator |
| `Shell.QuoteArgs` | pkg/provider/awsprovider/provider.go:404-408 | The space-joined single-quoted arguments |
| `Shell.BodyReads` | pkg/provider/awsprovider/channels.go:832-836 | Inside quotes the escaped text reads as the original, to the closing quote |
| `Shell.ArgumentsRead` | pkg/provider/awsprovider/provider.go:404-410 | For every non-empty list the shell (POSIX.1-2017 XCU 2.2.1, 2.2.2, 2.3) reads the arguments back, and then what follows a blank |
| `Shell.ShellRoundTrip` | pkg/provider/awsprovider/provider.go:404-410 | Tokenising the quoted, joined arguments returns them, empty ones and ones with quotes included |
| `Shell.QuotingIsInjective` | pkg/provider/awsprovider/channels.go:832-836 | Different argument lists never make the same line |
| `Shell.ContainerExecWords` | pkg/provider/awsprovider/provider.go:399-410 | Reading the command line of a call gives its arguments |
| `Systemd.Args` | pkg/provider/managedhost/container.go:47-81 | The docker argv: fixed flags with the fields in their places, proxy variables when a proxy is named, the shim when a path is given too |
| `Systemd.DockerReads` | pkg/provider/managedhost/container.go:47-81 | Read option by option, as docker does, the argv runs the image and gives each field of the container under its own flag, once |
| `Systemd.DockerReadsMounts` | pkg/provider/managedhost/container.go:64-76 | The mounts are the data directory and, exactly when a proxy is named and a path given, the shim |
| `Systemd.DockerReadsVariables` | pkg/provider/managedhost/container.go:66-79 | The variables are those that name the proxy, when there is one, then NODE_OPTIONS, with the shim exactly when it is mounted; there are no other options |
| `Systemd.SystemdExecStart` | pkg/provider/managedhost/container.go:94-104 | Elements with a blank in double quotes, the rest as they are, joined by spaces |
| `Systemd.SplitsBackIff` | pkg/provider/managedhost/container.go:83-104 | Splitting the value by systemd.syntax(7) returns the argv if and only if every element is good, for every argv |
| `Systemd.SplitCounts` | pkg/provider/managedhost/container.go:94-104 | No text splits into items with more characters and gaps than it has, so an empty element is always lost |
| `Systemd.ArgvGoodIff` | pkg/provider/managedhost/container.go:47-81 | A container's argv is good if and only if its free fields are |
| `Systemd.UnitLine` | pkg/provider/managedhost/container.go:47-104 | The unit line of a container splits back into its argv if and only if its free fields are good |
| `Systemd.DocumentedFallsShort` | pkg/provider/managedhost/container.go:88-93 | Exactly what the documented precondition leaves out: line ends, and in an element without blanks the apostrophe, the lone semicolon and emptiness |
| `Systemd.TwoBecomeOne` | pkg/provider/managedhost/container.go:88-93 | Two elements that meet the documented precondition and come back as one |
| `OAuth.NamesRoundTrip` | pkg/common/mcp_oauth.go:126-131 | The file of a file's secret is the file, the secret of a blob secret's file is the secret |
| `OAuth.BlobFiles` | pkg/common/mcp_oauth.go:69-79 | The trimmed lines that end in .json, sorted |
| `OAuth.CleanListing` | pkg/common/mcp_oauth.go:69-79 | For clean names, exactly the .json names, in strict order |
| `OAuth.Agent.StorableMeans` | pkg/common/mcp_oauth.go:46-60 | A blob worth keeping is valid JSON with something besides space in it |
| `OAuth.Agent.CaptureMCPOAuth` | pkg/common/mcp_oauth.go:26-65 | Stores exactly the valid blobs sorted before every file that fails and nothing else; succeeds exactly when none fails; counts them |
| `OAuth.Agent.CaptureAll` | pkg/common/mcp_oauth.go:26-65 | Without faults every blob worth keeping is stored |
| `OAuth.Agent.SkippedNeverStops` | pkg/common/mcp_oauth.go:46-60 | A blob that is blank or not valid JSON never stops a capture |
| `OAuth.Agent.RestoreMCPOAuth` | pkg/common/mcp_oauth.go:97-121 | Writes exactly the absent persisted files sorted before every one whose write fails; succeeds exactly when none fails; counts them |
| `OAuth.Agent.RestoreIsColdOnly` | pkg/common/mcp_oauth.go:111-113 | No file goes, and one changes exactly when its probe fails and is answered with absent, another content is persisted for it, and no write fails before it |
| `OAuth.Agent.RestoreTwice` | pkg/common/mcp_oauth.go:97-121 | After a complete restore a second one writes nothing |
| `OAuth.Agent.SurviveLoss` | pkg/common/mcp_oauth.go:26-121 | Capture, loss of the directory, restore: the directory is what a restore makes of an empty one, with every captured blob back with its content and every other file persisted before |
| `OAuth.BlindRestoreOverwrites` | pkg/provider/remoteprovider/provider.go:857-869 | Whatever blob is there, a probe that fails and is answered with absent lets restore replace it by the persisted one |

## Left out

- Docker, SSH, SSM, AWS, Terraform and file transfer: host commands are abstract steps that succeed, are lost, or are refused; `docker network rm` succeeds just when nothing is attached.
- SHA-256, JSON, YAML and base64: a hash is injective on contents, codecs are identities; JSON text outside one document per file is not modelled.
- Unicode: case folding and trimming cover ASCII.
- The CLI, MCP tool wrappers, prompts, tables, JSON schemas, status parsing and log scanning: one branch settles each.
- The OpenClaw and Hermes config generators, and the rest of the Envoy template: the filter's decision and its two tables are modelled, nothing around them.
- Hostname extraction from URLs (`pkg/common/egress_check.go:159-168`): the host is an input; clients are taken to send an address with colons in brackets.
- iptables commands that fail inside an Add or Remove: only interruption between commands keeps the suffix shape. Concurrent editors are interleaved command by command; one address runs one program at a time.
- Fleet.FleetIsolation: covers auto-assigned ports; the code does not check operator-chosen ones for uniqueness (`internal/cmd/admin_provision.go:293-296`).
- Fleet.ReachableAgents: records are kept in provisioning order and a provision saves its record before it plans, as on AWS; ports are as unbounded as the code's integers.
- Reconcile.ReconcileAgentNetwork: subnets are CIDR texts; of `migrated` only the direction the code supports is claimed, since a failed removal reports false after the teardown was attempted, and a failed creation makes the next run report false.
- Policy.PolicyFile.MergeForAgent: a nil model definition or task rule, on which the copy panics, is not modelled; money amounts are reals; a nil map and an empty one are not told apart.
- Policy.EffectiveAllowedDomains: the list is a value where the code appends to a slice, so its backing array is not modelled.
- Bootstrap.Bootstrap: provider calls apply whole or not at all; step details and messages are not modelled, nor the expansion of secret references before the run.
- Workspace.AgentWorkspace.Deploy: a write that fails may leave any content in that one file, the manifest then being the old one, the whole new one, or unreadable; the agent is assumed not to write the manifest file itself. Directories are created at need and not modelled.
- Channels.Fleet.BindChannel: reading and writing the fleet's files is assumed to work; containers, routers and per-agent configuration files are not modelled. Provisioned bindings are the ones the command line has validated. Records load in name order.
- Mirror.Deployed.Sync: reads and writes fail only because of the kinds of the entries on the way; symbolic links are not modelled. The walk order is any parents-first order, of which the lexical one is an instance.
- Guard.GuardScript: keys are NUL-free (POSIX leaves a NUL in a command substitution undefined), paths are taken as given, and jq is assumed to accept exactly the documents the Go decoder accepts.
- Shell.ShellRoundTrip: characters that are special outside quotes make the reader give up; quoted output never has them there. The fixed words before and the redirection after the arguments are not modelled.
- Systemd.SplitsBackIff: an element with a backslash, percent or dollar sign depends on more than the text and counts as not returned; prefix characters of the first word are not modelled, the program path being fixed. Ports and the process limit are non-negative.
- OAuth.Agent.CaptureMCPOAuth: transports that alter a blob are modelled only as content that is not valid JSON; a failed write leaves no partial file.
- Network.NextAvailablePort: returns an unbounded integer, as the plan checks the range.
