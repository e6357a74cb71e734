/** Capture of an agent's OAuth credential blobs into its secrets, and their restoration into an
    empty data directory (pkg/common/mcp_oauth.go). */
module OAuth {
  import opened Strings

  const PREFIX := "mcp-oauth/"
  const JSON := ".json"

  predicate IsBlobSecret(name: string) {
    HasPrefix(name, PREFIX)
  }

  function SecretToFile(name: string): string {
    if IsBlobSecret(name) then name[|PREFIX|..] else ""
  }

  /** Naming a file's secret and naming a secret's file undo each other. */
  lemma NamesRoundTrip(s: string)
    ensures IsBlobSecret(PREFIX + s) && SecretToFile(PREFIX + s) == s
    ensures IsBlobSecret(s) ==> PREFIX + SecretToFile(s) == s
  {
    assert (PREFIX + s)[..|PREFIX|] == PREFIX;
    assert (PREFIX + s)[|PREFIX|..] == s;
  }

  /** The common prefix does not disturb the order. */
  lemma {:induction false} PrefixKeepsOrder(p: string, a: string, b: string)
    ensures Less(p + a, p + b) <==> Less(a, b)
  {
    if p == "" {
      assert p + a == a && p + b == b;
    } else {
      assert (p + a)[1..] == p[1..] + a && (p + b)[1..] == p[1..] + b;
      PrefixKeepsOrder(p[1..], a, b);
    }
  }

  // ---- The listing: ls -1 prints a name a line ----

  predicate IsBlob(ln: string) {
    ln != "" && HasSuffix(ln, JSON)
  }

  function BlobLines(lines: seq<string>): seq<string> {
    if lines == [] then []
    else
      var init, last := BlobLines(lines[..|lines| - 1]), TrimSpace(lines[|lines| - 1]);
      if IsBlob(last) then init + [last] else init
  }

  method BlobFiles(listing: string) returns (files: seq<string>)
    ensures files == Sort(BlobLines(Lines(listing)))
  {
    var lines := Lines(listing);
    files := [];
    for i := 0 to |lines|
      invariant files == BlobLines(lines[..i])
    {
      assert lines[..i + 1][..i] == lines[..i];
      var ln := TrimSpace(lines[i]);
      if IsBlob(ln) {
        files := files + [ln];
      }
    }
    assert lines[..|lines|] == lines;
    files := Sort(files);
  }

  /** A name that a listing carries unchanged: one line, nothing to trim. */
  predicate CleanName(n: string) {
    '\n' !in n && TrimSpace(n) == n
  }

  lemma {:induction false} LinesOfListing(names: seq<string>)
    requires forall n :: n in names ==> CleanName(n)
    ensures Lines(Printed(names)) == names + [""]
  {
    if names != [] {
      LinesConcat(names[0], Printed(names[1..]));
      assert names[0] in names;
      LinesOfLine(names[0]);
      assert forall n :: n in names[1..] ==> n in names;
      LinesOfListing(names[1..]);
      assert names == [names[0]] + names[1..];
    }
  }

  lemma {:induction false} BlobLinesMembers(lines: seq<string>)
    ensures forall f :: f in BlobLines(lines) <==> IsBlob(f) && exists l :: l in lines && TrimSpace(l) == f
  {
    if lines != [] {
      var init, last := lines[..|lines| - 1], lines[|lines| - 1];
      BlobLinesMembers(init);
      assert lines == init + [last];
    }
  }

  lemma {:induction false} BlobLinesDistinct(lines: seq<string>)
    requires forall i, j :: 0 <= i < j < |lines| ==> TrimSpace(lines[i]) != TrimSpace(lines[j])
    ensures NoDuplicates(BlobLines(lines))
  {
    if lines != [] {
      var init, last := lines[..|lines| - 1], lines[|lines| - 1];
      BlobLinesDistinct(init);
      BlobLinesMembers(init);
      var b := BlobLines(init);
      forall l | l in init
        ensures TrimSpace(l) != TrimSpace(last)
      {
        var i :| 0 <= i < |init| && init[i] == l;
        assert lines[i] == l;
      }
      assert TrimSpace(last) !in b;
    }
  }

  function FilesListed(names: seq<string>): seq<string> {
    Sort(BlobLines(Lines(Printed(names))))
  }

  lemma FilesListedMembers(names: seq<string>)
    ensures Sorted(FilesListed(names))
    ensures forall f :: f in FilesListed(names) ==> IsBlob(f)
  {
    var b := BlobLines(Lines(Printed(names)));
    SortSorts(b);
    BlobLinesMembers(Lines(Printed(names)));
    forall f | f in Sort(b)
      ensures f in b
    {
      assert f in multiset(Sort(b));
    }
  }

  /** With clean names, the capture's files are the .json names in strict order. */
  lemma CleanListing(names: seq<string>)
    requires NoDuplicates(names) && forall n :: n in names ==> CleanName(n)
    ensures StrictlySorted(FilesListed(names))
    ensures forall f :: f in FilesListed(names) <==> f in names && HasSuffix(f, JSON)
  {
    LinesOfListing(names);
    var lines := names + [""];
    assert TrimSpace("") == "";
    assert forall n :: n in lines ==> n in names || n == "";
    BlobLinesMembers(lines);
    BlobLinesMembers(names);
    assert lines[..|lines| - 1] == names && lines[|lines| - 1] == "";
    assert !IsBlob("");
    assert BlobLines(lines) == BlobLines(names);
    forall i, j | 0 <= i < j < |names|
      ensures TrimSpace(names[i]) != TrimSpace(names[j])
    {
      assert names[i] in names && names[j] in names;
    }
    BlobLinesDistinct(names);
    SortDistinct(BlobLines(names));
    assert forall f :: f in FilesListed(names) <==> f in Elements(FilesListed(names));
    assert forall f :: f in BlobLines(names) <==> f in Elements(BlobLines(names));
    assert forall f :: HasSuffix(f, JSON) ==> f != "";
  }

  /** In a sorted list, what is found only from position i on comes after what is found before. */
  lemma FoundLater(files: seq<string>, i: nat, f: string, x: string)
    requires Sorted(files) && i <= |files| && f in files[..i] && x in files && x !in files[..i]
    ensures Less(f, x)
  {
    assert forall m :: 0 <= m < i ==> files[..i][m] == files[m] && files[..i][m] in files[..i];
    var k :| 0 <= k < i && files[k] == f;
    var m :| 0 <= m < |files| && files[m] == x;
    assert i <= m;
    LessTotal(f, x);
  }

  lemma FoundBefore(files: seq<string>, i: nat, f: string)
    requires Sorted(files) && i < |files| && f in files && Less(f, files[i])
    ensures f in files[..i]
  {
    var k :| 0 <= k < |files| && files[k] == f;
    LessIrreflexive(f);
    assert k < i;
    assert files[..i][k] == f;
  }

  // ---- What the two operations do ----

  /** secrets gained one entry for each file of kept, and nothing else changed. */
  ghost predicate GainedSecrets(was: map<string, string>, now: map<string, string>, kept: set<string>, dir: map<string, string>) {
    && (forall n :: n in now <==> n in was || (IsBlobSecret(n) && SecretToFile(n) in kept))
    && (forall n :: n in now && IsBlobSecret(n) && SecretToFile(n) in kept ==>
          SecretToFile(n) in dir && now[n] == dir[SecretToFile(n)])
    && (forall n :: n in now && !(IsBlobSecret(n) && SecretToFile(n) in kept) ==> n in was && now[n] == was[n])
  }

  ghost predicate GainedFiles(was: map<string, string>, now: map<string, string>, written: set<string>, secrets: map<string, string>) {
    && (forall f :: f in now <==> f in was || f in written)
    && (forall f :: f in written ==> PREFIX + f in secrets && now[f] == secrets[PREFIX + f])
    && (forall f :: f in now && f !in written ==> f in was && now[f] == was[f])
  }

  /** What can go wrong: reads, stores and writes that fail without effect, and existence probes
      that fail and are then answered by the provider's default. */
  datatype Faults = Faults(
    listingFails: bool,
    unreadable: set<string>,
    unstorable: set<string>,
    blind: set<string>,
    assumePresent: bool,
    unwritable: set<string>)

  const NO_FAULTS := Faults(false, {}, {}, {}, true, {})

  class Agent {
    const hasStateDir: bool
    const validJson: string -> bool
    var dir: map<string, string>
    var secrets: map<string, string>

    constructor (hasStateDir: bool, validJson: string -> bool, dir: map<string, string>, secrets: map<string, string>)
      ensures this.hasStateDir == hasStateDir && this.validJson == validJson
      ensures this.dir == dir && this.secrets == secrets
    {
      this.hasStateDir, this.validJson, this.dir, this.secrets := hasStateDir, validJson, dir, secrets;
    }

    /** The blob is worth keeping: not blank, and JSON. */
    predicate Storable(content: string) {
      TrimSpace(content) != "" && validJson(content)
    }

    /** A blob worth keeping is valid JSON with something in it besides space. */
    lemma StorableMeans(content: string)
      ensures Storable(content) <==> validJson(content) && exists i :: 0 <= i < |content| && !IsSpace(content[i])
    {
      var l, r := TrimMeaning(content);
      var t := TrimSpace(content);
      if t != "" {
        assert content[|l|] == t[0];
      } else {
        assert content == l + r;
      }
    }

    ghost predicate CaptureFails(f: string, w: Faults)
      reads this`dir
    {
      f !in dir || f in w.unreadable || (Storable(dir[f]) && f in w.unstorable)
    }

    ghost predicate CapturedFile(files: seq<string>, w: Faults, f: string)
      reads this`dir
    {
      && f in files && !CaptureFails(f, w) && Storable(dir[f])
      && forall x :: x in files && CaptureFails(x, w) ==> Less(f, x)
    }

    /** Captured: every storable file that comes before all that fail. */
    ghost function Captured(files: seq<string>, w: Faults): (kept: set<string>)
      reads this`dir
      ensures forall f :: f in kept <==> CapturedFile(files, w, f)
    {
      set f | f in files && CapturedFile(files, w, f)
    }

    /** One file: read it and, if it is worth keeping, store it. */
    method CaptureFile(f: string, w: Faults, ghost first: map<string, string>, ghost kept: set<string>) returns (stored: bool, ok: bool)
      requires GainedSecrets(first, secrets, kept, dir)
      modifies this`secrets
      ensures ok <==> !CaptureFails(f, w)
      ensures stored <==> ok && Storable(dir[f])
      ensures GainedSecrets(first, secrets, if stored then kept + {f} else kept, dir)
    {
      if f !in dir || f in w.unreadable {
        return false, false;
      }
      var content := dir[f];
      if !Storable(content) {
        return false, true;
      }
      if f in w.unstorable {
        return false, false;
      }
      ghost var was := secrets;
      secrets := secrets[PREFIX + f := content];
      Gained(first, was, secrets, kept, f);
      stored, ok := true, true;
    }

    method CaptureMCPOAuth(names: seq<string>, w: Faults) returns (captured: nat, ok: bool)
      modifies this`secrets
      ensures !hasStateDir || w.listingFails ==> secrets == old(secrets) && captured == 0 && ok == !hasStateDir
      ensures hasStateDir && !w.listingFails ==>
                && GainedSecrets(old(secrets), secrets, Captured(FilesListed(names), w), dir)
                && (ok <==> forall f :: f in FilesListed(names) ==> !CaptureFails(f, w))
                && (NoDuplicates(FilesListed(names)) ==> captured == |Captured(FilesListed(names), w)|)
    {
      if !hasStateDir {
        return 0, true;
      }
      if w.listingFails {
        return 0, false;
      }
      var files := BlobFiles(Printed(names));
      FilesListedMembers(names);
      captured, ok := CaptureFiles(files, w);
    }

    /** kept is what was captured from files[..i], none of which failed. */
    ghost predicate Progress(files: seq<string>, i: nat, w: Faults, kept: set<string>)
      requires i <= |files|
      reads this`dir
    {
      && (forall f :: f in files[..i] ==> !CaptureFails(f, w))
      && (forall f :: f in kept <==> f in files[..i] && f in dir && Storable(dir[f]))
    }

    lemma OneMore(files: seq<string>, i: nat, w: Faults, kept: set<string>)
      requires i < |files| && Progress(files, i, w, kept) && !CaptureFails(files[i], w)
      ensures Progress(files, i + 1, w, if Storable(dir[files[i]]) then kept + {files[i]} else kept)
      ensures NoDuplicates(files) ==> files[i] !in kept
    {
      var done := files[..i + 1];
      assert done == files[..i] + [files[i]];
    }

    lemma AllDone(files: seq<string>, w: Faults, kept: set<string>)
      requires Progress(files, |files|, w, kept)
      ensures kept == Captured(files, w)
    {
      assert files[..|files|] == files;
    }

    method CaptureFiles(files: seq<string>, w: Faults) returns (captured: nat, ok: bool)
      requires Sorted(files)
      modifies this`secrets
      ensures GainedSecrets(old(secrets), secrets, Captured(files, w), dir)
      ensures ok <==> forall f :: f in files ==> !CaptureFails(f, w)
      ensures NoDuplicates(files) ==> captured == |Captured(files, w)|
    {
      captured := 0;
      ghost var kept: set<string> := {};
      for i := 0 to |files|
        invariant Progress(files, i, w, kept)
        invariant GainedSecrets(old(secrets), secrets, kept, dir)
        invariant NoDuplicates(files) ==> captured == |kept|
      {
        var stored, fine := CaptureFile(files[i], w, old(secrets), kept);
        if !fine {
          CapturedUpTo(files, i, w, kept);
          return captured, false;
        }
        OneMore(files, i, w, kept);
        if stored {
          kept := kept + {files[i]};
          captured := captured + 1;
        }
      }
      AllDone(files, w, kept);
      ok := true;
    }

    lemma Gained(first: map<string, string>, was: map<string, string>, now: map<string, string>, kept: set<string>, f: string)
      requires GainedSecrets(first, was, kept, dir) && f in dir && now == was[PREFIX + f := dir[f]]
      ensures GainedSecrets(first, now, kept + {f}, dir)
    {
      forall n
        ensures IsBlobSecret(n) && SecretToFile(n) == f <==> n == PREFIX + f
      {
        NamesRoundTrip(n);
        NamesRoundTrip(f);
      }
    }

    /** Stopping at the first failing file has kept what the order-based description says. */
    lemma CapturedUpTo(files: seq<string>, i: nat, w: Faults, kept: set<string>)
      requires Sorted(files) && i < |files| && CaptureFails(files[i], w)
      requires Progress(files, i, w, kept)
      ensures kept == Captured(files, w)
    {
      forall f | f in kept
        ensures CapturedFile(files, w, f)
      {
        forall x | x in files && CaptureFails(x, w)
          ensures Less(f, x)
        {
          FoundLater(files, i, f, x);
        }
      }
      forall f | CapturedFile(files, w, f)
        ensures f in kept
      {
        assert files[i] in files;
        FoundBefore(files, i, f);
      }
    }

    // ---- Restoring ----

    /** The provider's answer, the directory holding d. */
    predicate Exists(d: map<string, string>, f: string, w: Faults) {
      if f in w.blind then w.assumePresent else f in d
    }

    /** Persisted, named, and absent as far as the provider can tell. */
    ghost predicate Wanted(d: map<string, string>, f: string, w: Faults)
      reads this`secrets
    {
      f != "" && PREFIX + f in secrets && !Exists(d, f, w)
    }

    ghost predicate RestoredFile(d: map<string, string>, f: string, w: Faults)
      reads this`secrets
    {
      Wanted(d, f, w) && forall x :: Wanted(d, x, w) && x in w.unwritable ==> Less(f, x)
    }

    /** Restored: every wanted file that comes before all the wanted ones whose write fails. */
    ghost function Restored(d: map<string, string>, w: Faults): (written: set<string>)
      reads this`secrets
      ensures forall f :: f in written <==> RestoredFile(d, f, w)
    {
      var files := set n | n in secrets && IsBlobSecret(n) :: SecretToFile(n);
      assert forall f :: Wanted(d, f, w) ==> f in files by {
        forall f | Wanted(d, f, w)
          ensures f in files
        {
          NamesRoundTrip(f);
        }
      }
      set f | f in files && RestoredFile(d, f, w)
    }

    method BlobSecretNames() returns (names: seq<string>)
      ensures StrictlySorted(names) && forall n :: n in names <==> n in secrets && IsBlobSecret(n)
    {
      names := [];
      var rest := secrets.Keys;
      while rest != {}
        invariant rest <= secrets.Keys && NoDuplicates(names)
        invariant forall n :: n in names <==> n in secrets && n !in rest && IsBlobSecret(n)
        decreases rest
      {
        var n :| n in rest;
        if IsBlobSecret(n) {
          names := names + [n];
        }
        rest := rest - {n};
      }
      SortDistinct(names);
      assert forall n :: n in Sort(names) <==> n in Elements(Sort(names));
      assert forall n :: n in names <==> n in Elements(names);
      names := Sort(names);
    }

    /** written is what was restored for names[..i], none of which failed. */
    ghost predicate RestoreProgress(names: seq<string>, i: nat, d: map<string, string>, w: Faults, written: set<string>)
      requires i <= |names|
      reads this`secrets
    {
      && (forall f :: f in written <==> PREFIX + f in names[..i] && Wanted(d, f, w))
      && (forall f :: f in written ==> f !in w.unwritable)
    }

    lemma NextName(names: seq<string>, i: nat, d: map<string, string>, w: Faults, written: set<string>)
      requires i < |names| && StrictlySorted(names) && IsBlobSecret(names[i])
      requires RestoreProgress(names, i, d, w, written)
      ensures var f := SecretToFile(names[i]);
              && PREFIX + f == names[i] && f !in written
              && (!(f in w.unwritable && Wanted(d, f, w)) ==>
                    RestoreProgress(names, i + 1, d, w, if Wanted(d, f, w) then written + {f} else written))
    {
      var f := SecretToFile(names[i]);
      NamesRoundTrip(names[i]);
      var done := names[..i + 1];
      assert done == names[..i] + [names[i]];
      assert names[i] !in names[..i] by {
        LessIrreflexive(names[i]);
      }
      forall g
        ensures PREFIX + g == names[i] <==> g == f
      {
        NamesRoundTrip(g);
      }
    }

    lemma RestoreStopped(names: seq<string>, i: nat, d: map<string, string>, w: Faults, written: set<string>)
      requires StrictlySorted(names) && forall n :: n in names <==> n in secrets && IsBlobSecret(n)
      requires i < |names| && RestoreProgress(names, i, d, w, written)
      requires var f := SecretToFile(names[i]); Wanted(d, f, w) && f in w.unwritable
      ensures written == Restored(d, w)
    {
      var stop := SecretToFile(names[i]);
      assert Sorted(names) by {
        forall k, m | 0 <= k < m < |names|
          ensures !Less(names[m], names[k])
        {
          LessAsymmetric(names[k], names[m]);
        }
      }
      assert names[i] in names;
      NamesRoundTrip(names[i]);
      forall f | f in written
        ensures RestoredFile(d, f, w)
      {
        forall x | Wanted(d, x, w) && x in w.unwritable
          ensures Less(f, x)
        {
          NamesRoundTrip(x);
          FoundLater(names, i, PREFIX + f, PREFIX + x);
          PrefixKeepsOrder(PREFIX, f, x);
        }
      }
      forall f | RestoredFile(d, f, w)
        ensures f in written
      {
        NamesRoundTrip(f);
        PrefixKeepsOrder(PREFIX, f, stop);
        FoundBefore(names, i, PREFIX + f);
      }
    }

    lemma RestoreFinished(names: seq<string>, d: map<string, string>, w: Faults, written: set<string>)
      requires forall n :: n in names <==> n in secrets && IsBlobSecret(n)
      requires RestoreProgress(names, |names|, d, w, written)
      ensures written == Restored(d, w)
      ensures forall f :: Wanted(d, f, w) ==> f !in w.unwritable
    {
      assert names[..|names|] == names;
      forall f | Wanted(d, f, w)
        ensures f in written
      {
        NamesRoundTrip(f);
      }
    }

    method RestoreMCPOAuth(w: Faults) returns (restored: nat, ok: bool)
      modifies this`dir
      ensures GainedFiles(old(dir), dir, Restored(old(dir), w), secrets)
      ensures ok <==> forall f :: Wanted(old(dir), f, w) ==> f !in w.unwritable
      ensures restored == |Restored(old(dir), w)|
    {
      var names := BlobSecretNames();
      restored := 0;
      ghost var written: set<string> := {};
      for i := 0 to |names|
        invariant RestoreProgress(names, i, old(dir), w, written)
        invariant GainedFiles(old(dir), dir, written, secrets)
        invariant restored == |written|
      {
        var name := names[i];
        assert name in names;
        var file := SecretToFile(name);
        NextName(names, i, old(dir), w, written);
        if file == "" {
          continue;
        }
        if Exists(dir, file, w) {
          continue;
        }
        if file in w.unwritable {
          RestoreStopped(names, i, old(dir), w, written);
          return restored, false;
        }
        dir := dir[file := secrets[name]];
        written := written + {file};
        restored := restored + 1;
      }
      RestoreFinished(names, old(dir), w, written);
      ok := true;
    }

    /** No existing file is removed, and one changes exactly when its probe fails and is answered
        with "absent", another content is persisted under its name, and no write fails before it;
        what is new is persisted. */
    method RestoreIsColdOnly(w: Faults) returns (restored: nat, ok: bool)
      modifies this`dir
      ensures forall f :: f in old(dir) ==> f in dir
      ensures forall f :: f in old(dir) ==>
                (dir[f] != old(dir)[f] <==>
                  && f != "" && f in w.blind && !w.assumePresent
                  && PREFIX + f in secrets && secrets[PREFIX + f] != old(dir)[f]
                  && forall x :: Wanted(old(dir), x, w) && x in w.unwritable ==> Less(f, x))
      ensures forall f :: f in dir && f !in old(dir) ==> PREFIX + f in secrets && dir[f] == secrets[PREFIX + f]
    {
      restored, ok := RestoreMCPOAuth(w);
    }

    /** A complete restore leaves nothing for the next one. */
    method RestoreTwice() returns (first: nat, second: nat)
      modifies this`dir
      ensures second == 0
      ensures GainedFiles(old(dir), dir, Restored(old(dir), NO_FAULTS), secrets)
    {
      var ok;
      first, ok := RestoreMCPOAuth(NO_FAULTS);
      ghost var between := dir;
      assert forall f :: !Wanted(between, f, NO_FAULTS);
      assert Restored(between, NO_FAULTS) == {};
      second, ok := RestoreMCPOAuth(NO_FAULTS);
    }

    /** The blobs that a capture is for. */
    ghost function WorthKeeping(): (kept: set<string>)
      reads this`dir
    {
      set f | f in dir && HasSuffix(f, JSON) && Storable(dir[f])
    }

    /** ls lists every blob, each under its own name. */
    ghost predicate ListsCleanly(names: seq<string>)
      reads this`dir
    {
      && NoDuplicates(names)
      && (forall n :: n in names ==> CleanName(n) && n in dir)
      && forall n :: n in dir && HasSuffix(n, JSON) ==> n in names
    }

    lemma CleanCapture(names: seq<string>)
      requires ListsCleanly(names)
      ensures Captured(FilesListed(names), NO_FAULTS) == WorthKeeping()
      ensures NoDuplicates(FilesListed(names)) && forall f :: f in FilesListed(names) ==> !CaptureFails(f, NO_FAULTS)
    {
      CleanListing(names);
      StrictHasNoDuplicates(FilesListed(names));
      forall f | f in WorthKeeping()
        ensures CapturedFile(FilesListed(names), NO_FAULTS, f)
      {
        assert f in FilesListed(names);
      }
    }

    /** A blob that is not worth keeping never stops a capture: while every file can be read and
        every blob worth keeping stored, those are what it keeps. */
    lemma SkippedNeverStops(files: seq<string>, w: Faults)
      requires forall f :: f in files ==> f in dir && f !in w.unreadable && (f in w.unstorable ==> !Storable(dir[f]))
      ensures forall f :: f in Captured(files, w) <==> f in files && Storable(dir[f])
    {
    }

    /** Without faults, a capture persists every blob worth keeping. */
    method CaptureAll(names: seq<string>) returns (captured: nat, ok: bool)
      requires hasStateDir && ListsCleanly(names)
      modifies this`secrets
      ensures ok && captured == |WorthKeeping()|
      ensures GainedSecrets(old(secrets), secrets, WorthKeeping(), dir)
    {
      CleanCapture(names);
      captured, ok := CaptureMCPOAuth(names, NO_FAULTS);
    }

    /** Capture, loss of the directory, restore: every blob captured is back as it was, and every
        file back is a captured blob or one persisted earlier. */
    method SurviveLoss(names: seq<string>) returns (captured: nat, restored: nat)
      requires hasStateDir && ListsCleanly(names)
      modifies this
      ensures forall f :: f in old(WorthKeeping()) ==> f in dir && dir[f] == old(dir)[f]
      ensures forall f :: f in dir && f !in old(WorthKeeping()) ==>
                PREFIX + f in old(secrets) && dir[f] == old(secrets)[PREFIX + f]
      ensures captured == |old(WorthKeeping())| && captured <= restored
      ensures GainedSecrets(old(secrets), secrets, old(WorthKeeping()), old(dir))
      ensures GainedFiles(map[], dir, Restored(map[], NO_FAULTS), secrets) && restored == |Restored(map[], NO_FAULTS)|
    {
      ghost var kept, blobs, before := WorthKeeping(), dir, secrets;
      assert forall f :: f in kept ==> f != "" && f in blobs;
      var ok;
      captured, ok := CaptureAll(names);
      dir := map[];
      restored, ok := RestoreMCPOAuth(NO_FAULTS);
      BackAsItWas(blobs, before, kept, Restored(map[], NO_FAULTS));
    }

    lemma BackAsItWas(blobs: map<string, string>, before: map<string, string>, kept: set<string>, written: set<string>)
      requires GainedSecrets(before, secrets, kept, blobs) && forall f :: f in kept ==> f != ""
      requires GainedFiles(map[], dir, written, secrets) && written == Restored(map[], NO_FAULTS)
      ensures forall f :: f in kept ==> f in blobs && f in dir && dir[f] == blobs[f]
      ensures forall f :: f in dir && f !in kept ==> PREFIX + f in before && dir[f] == before[PREFIX + f]
      ensures |kept| <= |written|
    {
      forall f
        ensures IsBlobSecret(PREFIX + f) && SecretToFile(PREFIX + f) == f
      {
        NamesRoundTrip(f);
      }
      forall f | f in kept
        ensures f in written
      {
        assert Wanted(map[], f, NO_FAULTS);
      }
      SubsetIsSmaller(kept, written);
    }
  }

  lemma {:induction false} SubsetIsSmaller(a: set<string>, b: set<string>)
    requires a <= b
    ensures |a| <= |b|
  {
    if x :| x in a {
      SubsetIsSmaller(a - {x}, b - {x});
    }
  }

  lemma StrictHasNoDuplicates(s: seq<string>)
    requires StrictlySorted(s)
    ensures NoDuplicates(s)
  {
    forall i, j | 0 <= i < j < |s|
      ensures s[i] != s[j]
    {
      LessIrreflexive(s[i]);
    }
  }

  /** A failing probe that the provider answers with "absent" lets restore replace whatever blob
      is there by the persisted one. */
  method BlindRestoreOverwrites(a: Agent, f: string) returns (restored: nat, ok: bool)
    requires f != "" && f in a.dir && PREFIX + f in a.secrets && a.dir[f] != a.secrets[PREFIX + f]
    modifies a`dir
    ensures f in a.dir && a.dir[f] == a.secrets[PREFIX + f] && a.dir[f] != old(a.dir)[f]
  {
    restored, ok := a.RestoreMCPOAuth(Faults(false, {}, {}, {f}, false, {}));
  }
}
