/** Deployed-policy manifests and drift detection (pkg/policy/manifest.go). */
module Drift {
  import opened Optional
  import opened Strings
  import opened Policy
  import opened Enforcement

  // ---- Canonical forms ----

  function CanonKey(d: string): string {
    ToLower(TrimSpace(d))
  }

  /** Neither the space around a domain nor its case tells it from another. */
  lemma CanonKeyIgnores(l: string, d: string, r: string)
    requires AllSpace(l) && AllSpace(r)
    ensures CanonKey(l + d + r) == CanonKey(d)
    ensures ToLower(CanonKey(d)) == CanonKey(d)
  {
    TrimAround(l, d, r);
    ToLowerIdempotent(TrimSpace(d));
  }

  function CanonSet(ds: seq<string>): set<string> {
    set d | d in ds && CanonKey(d) != "" :: CanonKey(d)
  }

  function CanonKeys(ds: seq<string>): seq<string> {
    if ds == [] then []
    else
      var init, key := CanonKeys(ds[..|ds| - 1]), CanonKey(ds[|ds| - 1]);
      if key == "" || key in init then init else init + [key]
  }

  /** None is Go's nil slice, which JSON tells apart from an empty one. */
  function Canon(ds: seq<string>): Option<seq<string>> {
    if ds == [] then None else Some(Sort(CanonKeys(ds)))
  }

  function Items(l: Option<seq<string>>): seq<string> {
    if l.None? then [] else l.value
  }

  lemma {:induction false} CanonKeysOnce(ds: seq<string>)
    ensures NoDuplicates(CanonKeys(ds)) && Elements(CanonKeys(ds)) == CanonSet(ds)
  {
    if ds != [] {
      var init := ds[..|ds| - 1];
      CanonKeysOnce(init);
      assert ds == init + [ds[|ds| - 1]];
      var key := CanonKey(ds[|ds| - 1]);
      if key != "" && key !in CanonKeys(init) {
        assert Elements(CanonKeys(init) + [key]) == Elements(CanonKeys(init)) + {key};
      }
      assert CanonSet(ds) == CanonSet(init) + (if key == "" then {} else {key});
    }
  }

  lemma CanonIsSorted(ds: seq<string>)
    ensures StrictlySorted(Items(Canon(ds))) && Elements(Items(Canon(ds))) == CanonSet(ds)
  {
    CanonKeysOnce(ds);
    if ds != [] {
      SortDistinct(CanonKeys(ds));
    }
  }

  method CanonDomains(ds: seq<string>) returns (out: Option<seq<string>>)
    ensures out == Canon(ds)
  {
    if |ds| == 0 {
      return None;
    }
    var seen: set<string> := {};
    var keys: seq<string> := [];
    for i := 0 to |ds|
      invariant keys == CanonKeys(ds[..i]) && seen == Elements(keys)
    {
      assert ds[..i + 1][..i] == ds[..i];
      var d := ToLower(TrimSpace(ds[i]));
      if d == "" || d in seen {
        continue;
      }
      seen := seen + {d};
      keys := keys + [d];
    }
    assert ds[..|ds|] == ds;
    out := Some(Sort(keys));
  }

  function CanonMode(mode: string): string {
    if mode == "" then ENFORCE else mode
  }

  datatype CanonEgress = CanonEgress(allowed: Option<seq<string>>, blocked: Option<seq<string>>, mode: string)

  function Canonical(e: Option<Egress>): CanonEgress {
    if e.None? then CanonEgress(None, None, ENFORCE)
    else CanonEgress(Canon(e.value.allowed), Canon(e.value.blocked), CanonMode(e.value.mode))
  }

  /** A manifest as stored on a host. The hash of a canonical policy stands for its JSON text,
      and two texts hash alike only when they are the same. */
  datatype Manifest = Manifest(hash: Option<CanonEgress>, egress: Egress)

  function BuildManifest(e: Option<Egress>): Manifest {
    var c := Canonical(e);
    Manifest(Some(c), Egress(Items(c.allowed), Items(c.blocked), c.mode))
  }

  // ---- Differences ----

  datatype Kind = Mismatch | MissingOnHost | ExtraOnHost

  datatype Field = WholeManifest | Mode | Allowed | Blocked

  /** A line of the report; the hash line carries the two hashes and is always a mismatch. */
  datatype Entry =
    | Entry(field: Field, desired: string, actual: string, kind: Kind)
    | HashEntry(desiredHash: CanonEgress, actualHash: CanonEgress)

  function Minus(l: seq<string>, s: set<string>): seq<string> {
    if l == [] then []
    else if l[0] in s then Minus(l[1..], s)
    else [l[0]] + Minus(l[1..], s)
  }

  lemma {:induction false} MinusElements(l: seq<string>, s: set<string>)
    ensures Elements(Minus(l, s)) == Elements(l) - s
  {
    if l != [] {
      MinusElements(l[1..], s);
      assert l == [l[0]] + l[1..];
      assert Elements(l) == {l[0]} + Elements(l[1..]);
      if l[0] !in s {
        assert Elements([l[0]] + Minus(l[1..], s)) == {l[0]} + Elements(Minus(l[1..], s));
      }
    }
  }

  lemma {:induction false} MinusSorted(l: seq<string>, s: set<string>)
    requires StrictlySorted(l)
    ensures StrictlySorted(Minus(l, s))
  {
    if l != [] {
      assert StrictlySorted(l[1..]);
      MinusSorted(l[1..], s);
      MinusElements(l[1..], s);
      var rest := Minus(l[1..], s);
      forall k | 0 <= k < |rest|
        ensures Less(l[0], rest[k])
      {
        assert rest[k] in Elements(rest);
        assert rest[k] in l[1..];
      }
    }
  }

  lemma MinusMembers(l: seq<string>, s: set<string>)
    requires StrictlySorted(l)
    ensures Elements(Minus(l, s)) == Elements(l) - s && StrictlySorted(Minus(l, s))
  {
    MinusElements(l, s);
    MinusSorted(l, s);
  }

  function MissingEntries(f: Field, ds: seq<string>): seq<Entry> {
    seq(|ds|, i requires 0 <= i < |ds| => Entry(f, ds[i], "", MissingOnHost))
  }

  function ExtraEntries(f: Field, ds: seq<string>): seq<Entry> {
    seq(|ds|, i requires 0 <= i < |ds| => Entry(f, "", ds[i], ExtraOnHost))
  }

  /** Missing domains in order, then extra ones in order. */
  function DomainDiff(f: Field, desired: seq<string>, actual: seq<string>): seq<Entry> {
    MissingEntries(f, Minus(Items(Canon(desired)), CanonSet(actual)))
    + ExtraEntries(f, Minus(Items(Canon(actual)), CanonSet(desired)))
  }

  /** Collects a set in arbitrary order and sorts it. */
  method SortedSet(s: set<string>) returns (l: seq<string>)
    ensures StrictlySorted(l) && Elements(l) == s
  {
    var rest := s;
    var picked: seq<string> := [];
    while rest != {}
      invariant Elements(picked) + rest == s && Elements(picked) !! rest
      invariant NoDuplicates(picked)
      decreases rest
    {
      var x :| x in rest;
      assert x !in Elements(picked);
      assert Elements(picked + [x]) == Elements(picked) + {x};
      rest := rest - {x};
      picked := picked + [x];
    }
    l := Sort(picked);
    SortDistinct(picked);
  }

  method DiffDomainSet(f: Field, desired: seq<string>, actual: seq<string>) returns (entries: seq<Entry>)
    ensures entries == DomainDiff(f, desired, actual)
  {
    var dList := CanonDomains(desired);
    var aList := CanonDomains(actual);
    var dSet, aSet := Elements(Items(dList)), Elements(Items(aList));
    CanonIsSorted(desired);
    CanonIsSorted(actual);
    var missing := SortedSet(dSet - aSet);
    var extra := SortedSet(aSet - dSet);
    MinusMembers(Items(dList), aSet);
    MinusMembers(Items(aList), dSet);
    StrictlySortedUnique(missing, Minus(Items(dList), aSet));
    StrictlySortedUnique(extra, Minus(Items(aList), dSet));
    entries := RenderDiff(f, missing, extra);
  }

  method RenderDiff(f: Field, missing: seq<string>, extra: seq<string>) returns (entries: seq<Entry>)
    ensures entries == MissingEntries(f, missing) + ExtraEntries(f, extra)
  {
    entries := [];
    for i := 0 to |missing|
      invariant entries == MissingEntries(f, missing[..i])
    {
      entries := entries + [Entry(f, missing[i], "", MissingOnHost)];
    }
    assert missing[..|missing|] == missing;
    for i := 0 to |extra|
      invariant entries == MissingEntries(f, missing) + ExtraEntries(f, extra[..i])
    {
      entries := entries + [Entry(f, "", extra[i], ExtraOnHost)];
    }
    assert extra[..|extra|] == extra;
  }

  function FieldDiff(desired: Manifest, actual: Manifest): seq<Entry> {
    var dm, am := CanonMode(desired.egress.mode), CanonMode(actual.egress.mode);
    (if dm != am then [Entry(Mode, dm, am, Mismatch)] else [])
    + DomainDiff(Allowed, desired.egress.allowed, actual.egress.allowed)
    + DomainDiff(Blocked, desired.egress.blocked, actual.egress.blocked)
  }

  predicate HashesDiffer(desired: Manifest, actual: Manifest) {
    desired.hash.Some? && actual.hash.Some? && desired.hash != actual.hash
  }

  function Diff(desired: Option<Manifest>, actual: Option<Manifest>): seq<Entry> {
    if desired.None? then []
    else if actual.None? then [Entry(WholeManifest, "deployed", "missing", MissingOnHost)]
    else
      var entries := FieldDiff(desired.value, actual.value);
      if entries == [] && HashesDiffer(desired.value, actual.value)
      then [HashEntry(desired.value.hash.value, actual.value.hash.value)] else entries
  }

  method DiffMode(desired: string, actual: string) returns (entries: seq<Entry>)
    ensures var dm, am := CanonMode(desired), CanonMode(actual);
            entries == if dm != am then [Entry(Mode, dm, am, Mismatch)] else []
  {
    var dm := desired;
    if dm == "" {
      dm := ENFORCE;
    }
    var am := actual;
    if am == "" {
      am := ENFORCE;
    }
    entries := if dm != am then [Entry(Mode, dm, am, Mismatch)] else [];
  }

  method DiffManifests(desired: Option<Manifest>, actual: Option<Manifest>) returns (entries: seq<Entry>)
    ensures entries == Diff(desired, actual)
  {
    if desired.None? {
      return [];
    }
    if actual.None? {
      return [Entry(WholeManifest, "deployed", "missing", MissingOnHost)];
    }
    entries := DiffMode(desired.value.egress.mode, actual.value.egress.mode);
    var allowed := DiffDomainSet(Allowed, desired.value.egress.allowed, actual.value.egress.allowed);
    entries := entries + allowed;
    var blocked := DiffDomainSet(Blocked, desired.value.egress.blocked, actual.value.egress.blocked);
    entries := entries + blocked;
    if |entries| == 0 && desired.value.hash.Some? && actual.value.hash.Some? &&
       desired.value.hash != actual.value.hash {
      entries := entries + [HashEntry(desired.value.hash.value, actual.value.hash.value)];
    }
  }

  // ---- What a drift report means ----

  /** A policy up to the order, case and repetition of its domains. */
  datatype Meaning = Meaning(allowed: set<string>, blocked: set<string>, mode: string)

  function MeaningOf(e: Egress): Meaning {
    Meaning(CanonSet(e.allowed), CanonSet(e.blocked), CanonMode(e.mode))
  }

  /** Acting on one line of the report: bring the host's value to the desired one. */
  function PatchOne(m: Meaning, e: Entry): Meaning {
    if e.HashEntry? then m
    else match e.field
    case Mode => m.(mode := e.desired)
    case Allowed =>
      m.(allowed := if e.kind == MissingOnHost then m.allowed + {e.desired} else m.allowed - {e.actual})
    case Blocked =>
      m.(blocked := if e.kind == MissingOnHost then m.blocked + {e.desired} else m.blocked - {e.actual})
    case WholeManifest => m
  }

  function Patch(m: Meaning, entries: seq<Entry>): Meaning
    decreases |entries|
  {
    if entries == [] then m else Patch(PatchOne(m, entries[0]), entries[1..])
  }

  lemma {:induction false} PatchConcat(m: Meaning, a: seq<Entry>, b: seq<Entry>)
    ensures Patch(m, a + b) == Patch(Patch(m, a), b)
    decreases |a|
  {
    if a == [] {
      assert a + b == b;
    } else {
      assert (a + b)[1..] == a[1..] + b;
      PatchConcat(PatchOne(m, a[0]), a[1..], b);
    }
  }

  lemma {:induction false} PatchMissing(m: Meaning, f: Field, ds: seq<string>)
    requires f == Allowed || f == Blocked
    ensures Patch(m, MissingEntries(f, ds)) ==
            if f == Allowed then m.(allowed := m.allowed + Elements(ds)) else m.(blocked := m.blocked + Elements(ds))
    decreases |ds|
  {
    if ds == [] {
      assert Elements(ds) == {};
    } else {
      assert ds == [ds[0]] + ds[1..];
      assert Elements(ds) == {ds[0]} + Elements(ds[1..]);
      assert MissingEntries(f, ds)[1..] == MissingEntries(f, ds[1..]);
      PatchMissing(PatchOne(m, MissingEntries(f, ds)[0]), f, ds[1..]);
      assert m.allowed + {ds[0]} + Elements(ds[1..]) == m.allowed + Elements(ds);
      assert m.blocked + {ds[0]} + Elements(ds[1..]) == m.blocked + Elements(ds);
    }
  }

  lemma {:induction false} PatchExtra(m: Meaning, f: Field, ds: seq<string>)
    requires f == Allowed || f == Blocked
    ensures Patch(m, ExtraEntries(f, ds)) ==
            if f == Allowed then m.(allowed := m.allowed - Elements(ds)) else m.(blocked := m.blocked - Elements(ds))
    decreases |ds|
  {
    if ds == [] {
      assert Elements(ds) == {};
    } else {
      assert ds == [ds[0]] + ds[1..];
      assert Elements(ds) == {ds[0]} + Elements(ds[1..]);
      assert ExtraEntries(f, ds)[1..] == ExtraEntries(f, ds[1..]);
      PatchExtra(PatchOne(m, ExtraEntries(f, ds)[0]), f, ds[1..]);
      assert m.allowed - {ds[0]} - Elements(ds[1..]) == m.allowed - Elements(ds);
      assert m.blocked - {ds[0]} - Elements(ds[1..]) == m.blocked - Elements(ds);
    }
  }

  /** Domain lines report exactly the symmetric difference, every domain once and in order:
      first what the host lacks, then what it has too much. */
  lemma DomainDiffExact(f: Field, desired: seq<string>, actual: seq<string>)
    ensures exists missing, extra ::
              && DomainDiff(f, desired, actual) == MissingEntries(f, missing) + ExtraEntries(f, extra)
              && StrictlySorted(missing) && Elements(missing) == CanonSet(desired) - CanonSet(actual)
              && StrictlySorted(extra) && Elements(extra) == CanonSet(actual) - CanonSet(desired)
  {
    CanonIsSorted(desired);
    CanonIsSorted(actual);
    var missing, extra := Minus(Items(Canon(desired)), CanonSet(actual)), Minus(Items(Canon(actual)), CanonSet(desired));
    MinusMembers(Items(Canon(desired)), CanonSet(actual));
    MinusMembers(Items(Canon(actual)), CanonSet(desired));
    assert DomainDiff(f, desired, actual) == MissingEntries(f, missing) + ExtraEntries(f, extra);
  }

  lemma PatchDomains(m: Meaning, f: Field, desired: seq<string>, actual: seq<string>)
    requires f == Allowed || f == Blocked
    requires (if f == Allowed then m.allowed else m.blocked) == CanonSet(actual)
    ensures Patch(m, DomainDiff(f, desired, actual)) ==
            if f == Allowed then m.(allowed := CanonSet(desired)) else m.(blocked := CanonSet(desired))
  {
    var missing, extra := Minus(Items(Canon(desired)), CanonSet(actual)), Minus(Items(Canon(actual)), CanonSet(desired));
    CanonIsSorted(desired);
    CanonIsSorted(actual);
    MinusMembers(Items(Canon(desired)), CanonSet(actual));
    MinusMembers(Items(Canon(actual)), CanonSet(desired));
    PatchConcat(m, MissingEntries(f, missing), ExtraEntries(f, extra));
    PatchMissing(m, f, missing);
    var m1 := Patch(m, MissingEntries(f, missing));
    PatchExtra(m1, f, extra);
    assert CanonSet(actual) + Elements(missing) - Elements(extra) == CanonSet(desired);
  }

  /** Diff and patch are inverse: acting on the report of any two manifests turns the meaning
      of the deployed policy into that of the desired one. */
  lemma DiffThenPatch(desired: Manifest, actual: Manifest)
    ensures Patch(MeaningOf(actual.egress), Diff(Some(desired), Some(actual))) == MeaningOf(desired.egress)
  {
    var m := MeaningOf(actual.egress);
    var dm := CanonMode(desired.egress.mode);
    var first := if dm != m.mode then [Entry(Mode, dm, m.mode, Mismatch)] else [];
    var allowed := DomainDiff(Allowed, desired.egress.allowed, actual.egress.allowed);
    var blocked := DomainDiff(Blocked, desired.egress.blocked, actual.egress.blocked);
    PatchConcat(m, first + allowed, blocked);
    PatchConcat(m, first, allowed);
    assert Patch(m, first) == m.(mode := dm);
    PatchDomains(m.(mode := dm), Allowed, desired.egress.allowed, actual.egress.allowed);
    PatchDomains(m.(mode := dm, allowed := CanonSet(desired.egress.allowed)), Blocked,
                 desired.egress.blocked, actual.egress.blocked);
    assert FieldDiff(desired, actual) == first + allowed + blocked;
    assert Patch(m, FieldDiff(desired, actual)) == MeaningOf(desired.egress);
    if FieldDiff(desired, actual) == [] && HashesDiffer(desired, actual) {
      var bare := [HashEntry(desired.hash.value, actual.hash.value)];
      assert bare[1..] == [];
    }
  }

  /** The canonical lists of a policy say no more than its meaning, unless every entry of a
      non-empty list is blank: Go then has an empty list where there should be none. */
  predicate AllBlank(ds: seq<string>) {
    ds != [] && forall i :: 0 <= i < |ds| ==> CanonKey(ds[i]) == ""
  }

  lemma CanonBySet(a: seq<string>, b: seq<string>)
    ensures Canon(a) == Canon(b) <==> CanonSet(a) == CanonSet(b) && (AllBlank(a) || AllBlank(b) ==> a != [] && b != [])
  {
    CanonIsSorted(a);
    CanonIsSorted(b);
    if CanonSet(a) == CanonSet(b) {
      StrictlySortedUnique(Items(Canon(a)), Items(Canon(b)));
    }
    BlankIsEmpty(a);
    BlankIsEmpty(b);
  }

  lemma BlankIsEmpty(ds: seq<string>)
    ensures CanonSet(ds) == {} <==> ds == [] || AllBlank(ds)
  {
    assert forall i :: 0 <= i < |ds| && CanonKey(ds[i]) != "" ==> CanonKey(ds[i]) in CanonSet(ds);
  }

  /** A canonical list means what the list did, so comparing built manifests compares the policies
      they were built from; and it canonicalises to itself unless the list was all blank. */
  lemma CanonOfCanon(ds: seq<string>)
    ensures CanonSet(Items(Canon(ds))) == CanonSet(ds)
    ensures Canon(Items(Canon(ds))) == Canon(ds) <==> !AllBlank(ds)
  {
    CanonSetOfCanon(ds);
    BlankIsEmpty(ds);
    CanonIsSorted(ds);
    var c := Items(Canon(ds));
    assert c != [] ==> c[0] in Elements(c);
    assert c == [] <==> CanonSet(ds) == {};
    BlankIsEmpty(c);
    CanonBySet(c, ds);
  }

  lemma CanonSetOfCanon(ds: seq<string>)
    ensures CanonSet(Items(Canon(ds))) == CanonSet(ds)
  {
    CanonIsSorted(ds);
    var c := Items(Canon(ds));
    forall k | k in CanonSet(ds)
      ensures CanonKey(k) == k
    {
      var d :| d in ds && CanonKey(d) == k;
      KeyOfKey(d);
    }
    assert forall d :: d in c ==> d in Elements(c);
  }

  lemma KeyOfKey(d: string)
    ensures CanonKey(CanonKey(d)) == CanonKey(d)
  {
    var t := TrimSpace(d);
    TrimEnds(d);
    TrimKeeps(ToLower(t));
    ToLowerIdempotent(t);
  }

  predicate NoOuterSpace(t: string) {
    t != [] ==> !IsSpace(t[0]) && !IsSpace(t[|t| - 1])
  }

  lemma TrimKeeps(t: string)
    requires NoOuterSpace(t)
    ensures TrimSpace(t) == t
  {
  }

  lemma TrimEnds(d: string)
    ensures NoOuterSpace(TrimSpace(d)) && NoOuterSpace(ToLower(TrimSpace(d)))
  {
    TrimLeftEnds(d);
    TrimRightEnds(TrimLeft(d));
  }

  lemma {:induction false} TrimLeftEnds(d: string)
    ensures TrimLeft(d) != [] ==> !IsSpace(TrimLeft(d)[0])
  {
    if d != [] && IsSpace(d[0]) {
      TrimLeftEnds(d[1..]);
    }
  }

  lemma {:induction false} TrimRightEnds(d: string)
    requires d != [] ==> !IsSpace(d[0])
    ensures NoOuterSpace(TrimRight(d))
  {
    if d != [] && IsSpace(d[|d| - 1]) {
      TrimRightEnds(d[..|d| - 1]);
    }
  }

  /** Whatever is compared, the report on two built manifests is empty exactly when the two
      policies have the same canonical form. */
  lemma EmptyDiffIff(desired: Option<Egress>, actual: Option<Egress>)
    ensures Diff(Some(BuildManifest(desired)), Some(BuildManifest(actual))) == []
            <==> Canonical(desired) == Canonical(actual)
  {
    var d, a := BuildManifest(desired), BuildManifest(actual);
    DiffThenPatch(d, a);
    if Canonical(desired) == Canonical(actual) {
      assert d == a;
      SameMeaningNoFields(d, a);
    }
  }

  /** The report of any two manifests, absent ones included, is empty exactly when none is desired,
      or one is deployed that means the same and has no other hash. */
  lemma EmptyReportIff(desired: Option<Manifest>, actual: Option<Manifest>)
    ensures Diff(desired, actual) == []
            <==> desired.None? || (actual.Some? && MeaningOf(desired.value.egress) == MeaningOf(actual.value.egress)
                                   && !HashesDiffer(desired.value, actual.value))
  {
    if desired.Some? && actual.Some? {
      DiffThenPatch(desired.value, actual.value);
      if MeaningOf(desired.value.egress) == MeaningOf(actual.value.egress) {
        SameMeaningNoFields(desired.value, actual.value);
      }
    }
  }

  /** A host without a manifest is reported as missing it, in one line about the whole. */
  lemma AbsentIsReported(desired: Manifest)
    ensures var r := Diff(Some(desired), None);
            |r| == 1 && r[0].Entry? && r[0].field == WholeManifest && r[0].kind == MissingOnHost
  {
  }

  /** An absent mode means enforce, in the report and in the manifest. */
  lemma AbsentModeIsEnforce(allowed: seq<string>, blocked: seq<string>)
    ensures BuildManifest(Some(Egress(allowed, blocked, ""))) == BuildManifest(Some(Egress(allowed, blocked, ENFORCE)))
    ensures BuildManifest(Some(Egress(allowed, blocked, ""))).egress.mode == ENFORCE
  {
  }

  lemma NoElements(l: seq<string>)
    ensures Elements(l) == {} ==> l == []
  {
    if l != [] {
      assert l[0] in Elements(l);
    }
  }

  lemma SameSetNoDiff(f: Field, desired: seq<string>, actual: seq<string>)
    requires CanonSet(desired) == CanonSet(actual)
    ensures DomainDiff(f, desired, actual) == []
  {
    CanonIsSorted(desired);
    CanonIsSorted(actual);
    MinusElements(Items(Canon(desired)), CanonSet(actual));
    MinusElements(Items(Canon(actual)), CanonSet(desired));
    NoElements(Minus(Items(Canon(desired)), CanonSet(actual)));
    NoElements(Minus(Items(Canon(actual)), CanonSet(desired)));
  }

  lemma SameMeaningNoFields(d: Manifest, a: Manifest)
    requires MeaningOf(d.egress) == MeaningOf(a.egress)
    ensures FieldDiff(d, a) == []
  {
    SameSetNoDiff(Allowed, d.egress.allowed, a.egress.allowed);
    SameSetNoDiff(Blocked, d.egress.blocked, a.egress.blocked);
  }

  lemma BuiltMeaning(e: Egress)
    ensures MeaningOf(BuildManifest(Some(e)).egress) == MeaningOf(e)
  {
    CanonOfCanon(e.allowed);
    CanonOfCanon(e.blocked);
  }

  /** One of the lists holds nothing but blanks and the other is absent. */
  predicate BlankAgainstNone(a: seq<string>, b: seq<string>) {
    (AllBlank(a) && b == []) || (a == [] && AllBlank(b))
  }

  lemma CanonicalIff(d: Egress, a: Egress)
    ensures Canonical(Some(d)) == Canonical(Some(a))
            <==> && MeaningOf(d) == MeaningOf(a)
                 && !BlankAgainstNone(d.allowed, a.allowed) && !BlankAgainstNone(d.blocked, a.blocked)
  {
    CanonBySet(d.allowed, a.allowed);
    CanonBySet(d.blocked, a.blocked);
    BlankIsEmpty(d.allowed);
    BlankIsEmpty(a.allowed);
    BlankIsEmpty(d.blocked);
    BlankIsEmpty(a.blocked);
  }

  lemma BareHashSameMeaning(d: Manifest, a: Manifest)
    requires var r := Diff(Some(d), Some(a)); |r| == 1 && r[0].HashEntry?
    ensures MeaningOf(d.egress) == MeaningOf(a.egress)
  {
    DiffThenPatch(d, a);
    var r := Diff(Some(d), Some(a));
    assert r[1..] == [];
  }

  /** The report is a bare hash line exactly when the two policies mean the same but one of them
      has a list of nothing but blanks where the other has no list. It shows the two hashes, and
      it never stands beside another line. */
  lemma BareHashMismatchIff(desired: Egress, actual: Egress)
    ensures var r := Diff(Some(BuildManifest(Some(desired))), Some(BuildManifest(Some(actual))));
            && (r == [HashEntry(Canonical(Some(desired)), Canonical(Some(actual)))]
                <==> && MeaningOf(desired) == MeaningOf(actual)
                     && (BlankAgainstNone(desired.allowed, actual.allowed)
                         || BlankAgainstNone(desired.blocked, actual.blocked)))
            && ((exists x :: x in r && x.HashEntry?) <==> r == [HashEntry(Canonical(Some(desired)), Canonical(Some(actual)))])
  {
    var d, a := BuildManifest(Some(desired)), BuildManifest(Some(actual));
    var r := Diff(Some(d), Some(a));
    BuiltMeaning(desired);
    BuiltMeaning(actual);
    CanonicalIff(desired, actual);
    FieldLinesHaveNoHash(d, a);
    if |r| == 1 && r[0].HashEntry? {
      BareHashSameMeaning(d, a);
    }
    if MeaningOf(desired) == MeaningOf(actual) {
      SameMeaningNoFields(d, a);
    }
  }

  lemma FieldLinesHaveNoHash(d: Manifest, a: Manifest)
    ensures forall x :: x in FieldDiff(d, a) ==> x.Entry?
  {
    DomainLinesHaveNoHash(Allowed, d.egress.allowed, a.egress.allowed);
    DomainLinesHaveNoHash(Blocked, d.egress.blocked, a.egress.blocked);
  }

  lemma DomainLinesHaveNoHash(f: Field, desired: seq<string>, actual: seq<string>)
    ensures forall x :: x in DomainDiff(f, desired, actual) ==> x.Entry?
  {
  }

  // ---- What an empty report promises ----

  /** Validation leaves nothing to trim, so canonicalising a validated list only folds case. */
  lemma ValidCanonSet(ds: seq<string>)
    requires forall i :: 0 <= i < |ds| ==> ValidDomain(ds[i])
    ensures CanonSet(ds) == LowerSet(ds) && !AllBlank(ds)
  {
    forall i | 0 <= i < |ds|
      ensures CanonKey(ds[i]) == ToLower(ds[i]) && CanonKey(ds[i]) != ""
    {
      ValidDomainChars(ds[i]);
    }
    assert ds == [] || CanonKey(ds[0]) != "";
  }

  lemma CoveredByKeys(host: string, a: seq<string>, b: seq<string>)
    requires LowerSet(a) <= LowerSet(b) && Covered(host, a)
    ensures Covered(host, b)
  {
    var i :| 0 <= i < |a| && MatchDomain(a[i], host);
    assert ToLower(a[i]) in LowerSet(a);
    var j :| 0 <= j < |b| && ToLower(b[j]) == ToLower(a[i]);
    assert MatchDomain(b[j], host);
  }

  /** An empty report means the same mode and the same decision for every host, in the pattern
      matcher and in the two tables the proxy filter is made of: for every two sections of valid
      lists, an absent one included. */
  lemma InSyncMeansSameDecisions(desired: Option<Egress>, actual: Option<Egress>, host: string)
    requires Usable(desired) && Usable(actual)
    ensures Diff(Some(BuildManifest(desired)), Some(BuildManifest(actual))) == [] ==>
              && ModeOf(desired) == ModeOf(actual)
              && SameDecisions(host, Effective(desired), Effective(actual))
  {
    EmptyDiffIff(desired, actual);
    if Canonical(desired) == Canonical(actual) {
      SameCanonSameDecisions(Section(desired), Section(actual), host);
    }
  }

  /** The same between what the policy file merges to for an agent and what was deployed for it,
      whatever the sections block of each other. */
  lemma MergedInSync(global: Option<Egress>, overridden: bool, own: Option<Egress>, actual: Option<Egress>, host: string)
    requires Usable(global) && Usable(own) && Usable(actual)
    ensures var desired := MergedEgress(global, overridden, own);
            Diff(Some(BuildManifest(desired)), Some(BuildManifest(actual))) == [] ==>
              && ModeOf(desired) == ModeOf(actual)
              && SameDecisions(host, Effective(desired), Effective(actual))
  {
    MergedIsUsable(global, overridden, own);
    InSyncMeansSameDecisions(MergedEgress(global, overridden, own), actual, host);
  }

  function ModeOf(e: Option<Egress>): string {
    if e.None? then ENFORCE else e.value.mode
  }

  /** An absent section is an enforced one without domains. */
  function Section(e: Option<Egress>): Egress {
    if e.None? then Egress([], [], ENFORCE) else e.value
  }

  /** The same decision for a host, and the same two tables. */
  ghost predicate SameDecisions(host: string, d: seq<string>, a: seq<string>) {
    && (Covered(host, d) <==> Covered(host, a))
    && (forall h :: h in ExactOf(d) <==> h in ExactOf(a))
    && (forall b :: b in BasesOf(d) <==> b in BasesOf(a))
  }

  lemma SameCanonSameDecisions(desired: Egress, actual: Egress, host: string)
    requires ValidLists(desired) && ValidLists(actual)
    requires Canonical(Some(desired)) == Canonical(Some(actual))
    ensures desired.mode == actual.mode && SameDecisions(host, Effective(Some(desired)), Effective(Some(actual)))
  {
    CanonIsSorted(desired.allowed);
    CanonIsSorted(actual.allowed);
    CanonIsSorted(desired.blocked);
    CanonIsSorted(actual.blocked);
    ValidCanonSet(desired.allowed);
    ValidCanonSet(actual.allowed);
    ValidCanonSet(desired.blocked);
    ValidCanonSet(actual.blocked);
    EffectiveKeys(Some(desired));
    EffectiveKeys(Some(actual));
    var d, a := Effective(Some(desired)), Effective(Some(actual));
    assert LowerSet(d) == LowerSet(a);
    if Covered(host, d) {
      CoveredByKeys(host, d, a);
    }
    if Covered(host, a) {
      CoveredByKeys(host, a, d);
    }
    SplitMembers(d);
    SplitMembers(a);
  }

  /** Between sections of valid lists, merged ones included, the hash line never appears. */
  lemma ValidatedNeverBareHash(desired: Option<Egress>, actual: Option<Egress>)
    requires Usable(desired) && Usable(actual)
    ensures forall x :: x in Diff(Some(BuildManifest(desired)), Some(BuildManifest(actual))) ==> x.Entry?
  {
    var d, a := Section(desired), Section(actual);
    assert BuildManifest(Some(d)) == BuildManifest(desired) && BuildManifest(Some(a)) == BuildManifest(actual);
    BareHashMismatchIff(d, a);
    ValidCanonSet(d.allowed);
    ValidCanonSet(a.allowed);
    ValidCanonSet(d.blocked);
    ValidCanonSet(a.blocked);
  }
}
