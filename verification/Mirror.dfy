/** Mirroring the repository's agents/ tree into the deployed one (internal/cmd/agent_behavior.go).
    Paths are relative to the tree's root; reads, writes and removals fail only where the kinds of
    the entries on the way make them fail, and then silently, as in the Go code. */
module Mirror {
  import opened Optional

  type Path = seq<string>

  datatype Tree = Tree(files: map<Path, string>, dirs: set<Path>)

  /** a is a directory position on the way to p. */
  predicate Above(a: Path, p: Path) {
    0 < |a| < |p| && a == p[..|a|]
  }

  predicate HasNode(t: Tree, p: Path) {
    p in t.files || p in t.dirs
  }

  ghost predicate WellFormed(t: Tree) {
    && !HasNode(t, [])
    && (forall p :: p in t.files ==> p !in t.dirs)
    && (forall a, p :: Above(a, p) && HasNode(t, p) ==> a in t.dirs)
  }

  /** Some entry on the way to p is a file. */
  predicate BehindFile(t: Tree, p: Path) {
    exists k :: 0 < k < |p| && p[..k] in t.files
  }

  datatype StatResult = Found | NotFound | NotADirectory

  /** os.Stat; only NotFound satisfies os.IsNotExist. */
  function Stat(t: Tree, p: Path): StatResult {
    if HasNode(t, p) then Found else if BehindFile(t, p) then NotADirectory else NotFound
  }

  /** What WalkDir lists below the root: every entry once, a directory before what it holds. The
      order of filepath.WalkDir is the lexical one; nothing below depends on which of these it is. */
  ghost predicate Listing(walk: seq<Path>, t: Tree) {
    && (forall p :: p in walk <==> HasNode(t, p))
    && (forall i, j :: 0 <= i < j < |walk| ==> walk[i] != walk[j] && !Above(walk[j], walk[i]))
  }

  lemma {:induction false} SomeEntryIsReady(t: Tree, rest: set<Path>, p: Path) returns (q: Path)
    requires WellFormed(t) && p in rest
    ensures q in rest && forall a :: a in rest ==> !Above(a, q)
    decreases |p|
  {
    if a :| a in rest && Above(a, p) {
      q := SomeEntryIsReady(t, rest, a);
    } else {
      q := p;
    }
  }

  method WalkDir(t: Tree) returns (walk: seq<Path>)
    requires WellFormed(t)
    ensures Listing(walk, t)
  {
    walk := [];
    var rest := t.files.Keys + t.dirs;
    while rest != {}
      invariant forall p :: HasNode(t, p) <==> p in rest || p in walk
      invariant forall p :: p in walk ==> p !in rest
      invariant forall i, j :: 0 <= i < j < |walk| ==> walk[i] != walk[j] && !Above(walk[j], walk[i])
      invariant forall i, a :: 0 <= i < |walk| && a in rest ==> !Above(a, walk[i])
      decreases rest
    {
      ghost var some :| some in rest;
      ghost var ready := SomeEntryIsReady(t, rest, some);
      var q :| q in rest && forall a :: a in rest ==> !Above(a, q);
      walk := walk + [q];
      rest := rest - {q};
    }
  }

  // ---- What the copy can do to a deployed tree ----

  /** A file cannot be written where a directory stands or behind another file. */
  predicate Unwritable(t: Tree, p: Path) {
    p in t.dirs || BehindFile(t, p)
  }

  /** The copy has written every writable source file, made every directory it could, and left
      the rest alone. */
  ghost predicate Copied(src: Tree, was: Tree, now: Tree) {
    && (forall p :: p in now.files <==> p in was.files || (p in src.files && !Unwritable(was, p)))
    && (forall p :: p in now.files ==>
          now.files[p] == if p in src.files && !Unwritable(was, p) then src.files[p] else was.files[p])
    && (forall d :: d in now.dirs <==> d in was.dirs || (d in src.dirs && d !in was.files && !BehindFile(was, d)))
  }

  /** No path is a file on one side and a directory on the other, unless it is a top-level
      deployed file and the source directory holds no file. */
  ghost predicate KindsAgree(src: Tree, was: Tree) {
    && (forall p :: p in src.files ==> p !in was.dirs)
    && (forall p :: p in was.files && p in src.dirs ==> |p| == 1 && forall f :: f in src.files ==> !Above(p, f))
  }

  /** Every nested file agrees in presence and content, and every top-level source file is there. */
  ghost predicate Mirrors(src: Tree, now: Tree) {
    && (forall p :: |p| >= 2 ==> (p in now.files <==> p in src.files))
    && (forall p :: p in src.files ==> p in now.files && now.files[p] == src.files[p])
  }

  /** The files after a whole sync, told from the two trees before it. */
  ghost predicate Synced(src: Tree, was: Tree, now: Tree) {
    && (forall p :: p in now.files <==>
          || (p in src.files && !Unwritable(was, p))
          || (p in was.files && (|p| == 1 || Stat(src, p) != NotFound)))
    && (forall p :: p in now.files ==>
          now.files[p] == if p in src.files && !Unwritable(was, p) then src.files[p] else was.files[p])
    && (forall d :: d in now.dirs ==> exists f :: f in now.files && Above(d, f))
  }

  /** A sync makes a mirror exactly when the kinds agreed before it. */
  lemma MirrorsIff(src: Tree, was: Tree, now: Tree)
    requires WellFormed(src) && WellFormed(was) && Synced(src, was, now)
    ensures Mirrors(src, now) <==> KindsAgree(src, was)
  {
    if KindsAgree(src, was) {
      forall p | p in src.files
        ensures !Unwritable(was, p)
      {
        forall k | 0 < k < |p|
          ensures p[..k] !in was.files
        {
          assert Above(p[..k], p);
        }
      }
      forall p | |p| >= 2 && p in was.files && p !in src.files
        ensures Stat(src, p) == NotFound
      {
        forall k | 0 < k < |p|
          ensures p[..k] !in src.files
        {
          assert Above(p[..k], p);
        }
      }
    }
    if Mirrors(src, now) {
      forall p | p in src.files
        ensures p !in was.dirs
      {
        assert p in was.files || !Unwritable(was, p);
      }
      forall p | p in was.files && p in src.dirs
        ensures |p| == 1
        ensures forall f :: f in src.files ==> !Above(p, f)
      {
        assert Stat(src, p) == Found;
        forall f | f in src.files
          ensures !Above(p, f)
        {
          BehindOrBeside(was, p, f);
          assert f in was.files ==> HasNode(was, f);
        }
      }
    }
  }

  lemma BehindOrBeside(t: Tree, p: Path, f: Path)
    requires p in t.files
    ensures Above(p, f) ==> BehindFile(t, f)
  {
  }

  /** Part of a copy leaves what can be written, and made, as it was. */
  ghost predicate Between(src: Tree, was: Tree, now: Tree) {
    && (forall p :: p in was.files ==> p in now.files)
    && (forall p :: p in now.files ==> p in was.files || p in src.files)
    && (forall d :: d in was.dirs ==> d in now.dirs)
    && (forall d :: d in now.dirs ==> d in was.dirs || d in src.dirs)
  }

  lemma SameObstacles(src: Tree, was: Tree, now: Tree, p: Path)
    requires WellFormed(src) && Between(src, was, now) && HasNode(src, p)
    ensures BehindFile(now, p) == BehindFile(was, p)
    ensures p in src.files ==> Unwritable(now, p) == Unwritable(was, p)
    ensures p in src.dirs ==> (p in now.files <==> p in was.files)
  {
    if k :| 0 < k < |p| && p[..k] in now.files {
      assert Above(p[..k], p);
      assert p[..k] in was.files;
    }
  }

  /** What copying one entry does. */
  ghost predicate EntryCopied(src: Tree, a: Tree, b: Tree, p: Path) {
    && b.files == (if p in src.files && !Unwritable(a, p) then a.files[p := src.files[p]] else a.files)
    && (forall d :: d in b.dirs && d !in a.dirs ==> d in src.dirs && d !in a.files && !BehindFile(a, d))
    && (forall d :: d in a.dirs ==> d in b.dirs)
    && (p in src.dirs && p !in a.files && !BehindFile(a, p) ==> p in b.dirs)
  }

  /** What the copy has done after some entries. */
  ghost predicate CopiedSoFar(src: Tree, was: Tree, now: Tree, done: seq<Path>) {
    && Between(src, was, now)
    && (forall p :: p in now.files <==> p in was.files || (p in done && p in src.files && !Unwritable(was, p)))
    && (forall p :: p in now.files ==>
          now.files[p] == if p in done && p in src.files && !Unwritable(was, p) then src.files[p] else was.files[p])
    && (forall d :: d in now.dirs ==> d in was.dirs || (d in src.dirs && d !in was.files && !BehindFile(was, d)))
    && (forall d :: d in done && d in src.dirs && d !in was.files && !BehindFile(was, d) ==> d in now.dirs)
  }

  lemma CopiedOneMore(src: Tree, was: Tree, a: Tree, b: Tree, done: seq<Path>, p: Path)
    requires WellFormed(src) && HasNode(src, p) && CopiedSoFar(src, was, a, done) && EntryCopied(src, a, b, p)
    ensures CopiedSoFar(src, was, b, done + [p])
  {
    SameObstacles(src, was, a, p);
    forall d | d in b.dirs && d !in a.dirs
      ensures d in src.dirs && d !in was.files && !BehindFile(was, d)
    {
      SameObstacles(src, was, a, d);
    }
  }

  /** Nothing stands in the way of a directory above one that nothing stands in the way of. */
  lemma NotBehind(t: Tree, d: Path, p: Path)
    requires d == p || Above(d, p)
    requires p !in t.files && !BehindFile(t, p)
    ensures d !in t.files && !BehindFile(t, d)
  {
    assert d == p[..|d|];
    forall k | 0 < k < |d|
      ensures d[..k] !in t.files
    {
      assert d[..k] == p[..k];
    }
  }

  /** A file stands on the way to p if and only if one stands on the way to, or at, its parent. */
  lemma ParentIsThere(t: Tree, p: Path)
    requires p != [] && WellFormed(t)
    ensures var parent := p[..|p| - 1];
            && (BehindFile(t, p) <==> parent in t.files || BehindFile(t, parent))
            && (BehindFile(t, p) ==> parent !in t.dirs)
  {
    var parent := p[..|p| - 1];
    forall k | 0 < k < |parent|
      ensures p[..k] == parent[..k]
    {
    }
    assert parent in t.files ==> parent == p[..|p| - 1] && |parent| > 0;
    if k :| 0 < k < |p| && p[..k] in t.files {
      if k < |parent| {
        assert Above(p[..k], parent);
        assert parent[..k] in t.files;
      }
    }
  }

  /** A source file where the deployed tree has a directory with a file in it, or, with the two
      trees exchanged, a source directory in place of a nested deployed file: no sync helps. */
  lemma FileAgainstDirectory(a: string, b: string, c: string, content: string, stale: string)
    ensures var src, was := Tree(map[[a, b] := content], {[a]}), Tree(map[[a, b, c] := stale], {[a], [a, b]});
            WellFormed(src) && WellFormed(was) && Swept(was) && Swept(src) && !KindsAgree(src, was) && !KindsAgree(was, src)
  {
    var src, was := Tree(map[[a, b] := content], {[a]}), Tree(map[[a, b, c] := stale], {[a], [a, b]});
    assert Above([a], [a, b, c]) && Above([a, b], [a, b, c]) && Above([a], [a, b]);
    assert [a, b] in src.files && [a, b] in was.dirs;
    forall x, p | Above(x, p) && HasNode(was, p)
      ensures x in was.dirs
    {
      assert x == p[..|x|] && |x| < |p| <= 3;
    }
    forall x, p | Above(x, p) && HasNode(src, p)
      ensures x in src.dirs
    {
      assert x == p[..|x|] && |x| < |p| <= 2;
    }
    assert [a, b, c] in was.files;
    assert Above([a], [a, b]) && [a, b] in src.files;
  }

  class Deployed {
    var files: map<Path, string>
    var dirs: set<Path>

    function Now(): Tree
      reads this
    {
      Tree(files, dirs)
    }

    method MkdirAll(p: Path)
      modifies this`dirs
      requires WellFormed(Now())
      ensures WellFormed(Now())
      ensures var blocked := p in files || BehindFile(Now(), p);
              forall d :: d in dirs <==> d in old(dirs) || (!blocked && (d == p || Above(d, p)) && d != [])
    {
      if p in files || BehindFile(Now(), p) {
        return;
      }
      dirs := dirs + set k | 1 <= k <= |p| :: p[..k];
      forall d
        ensures d in dirs <==> d in old(dirs) || ((d == p || Above(d, p)) && d != [])
      {
        if (d == p || Above(d, p)) && d != [] {
          assert d == p[..|d|];
        }
      }
      forall a, q | Above(a, q) && (q == p || Above(q, p))
        ensures Above(a, p)
      {
      }
    }

    method WriteFile(p: Path, content: string)
      modifies this`files
      requires WellFormed(Now()) && p != []
      ensures WellFormed(Now())
      ensures var ok := p !in dirs && (|p| == 1 || p[..|p| - 1] in dirs);
              files == if ok then old(files)[p := content] else old(files)
    {
      if p !in dirs && (|p| == 1 || p[..|p| - 1] in dirs) {
        forall a | Above(a, p)
          ensures a in dirs
        {
          var parent := p[..|p| - 1];
          assert a == parent || Above(a, parent);
        }
        forall a, q | Above(a, q) && HasNode(Now(), q)
          ensures a != p
        {
        }
        files := files[p := content];
      }
    }

    /** os.Remove on a directory: nothing happens unless it is empty. */
    method RemoveDir(d: Path)
      modifies this`dirs
      requires WellFormed(Now())
      ensures WellFormed(Now())
      ensures dirs == if exists q :: (q in files || q in dirs) && Above(d, q) then old(dirs) else old(dirs) - {d}
    {
      if !(exists q :: q in files.Keys + dirs && Above(d, q)) {
        dirs := dirs - {d};
      } else {
        ghost var q :| q in files.Keys + dirs && Above(d, q);
        assert q in files || q in dirs;
      }
    }

    /** One step of the copy walk. */
    method CopyEntry(src: Tree, p: Path)
      modifies this
      requires WellFormed(src) && WellFormed(Now()) && HasNode(src, p)
      ensures WellFormed(Now())
      ensures EntryCopied(src, old(Now()), Now(), p)
    {
      ghost var was := Now();
      if p in src.dirs {
        MkdirAll(p);
        forall d | d in dirs && d !in was.dirs
          ensures d in src.dirs && d !in was.files && !BehindFile(was, d)
        {
          NotBehind(was, d, p);
        }
      } else {
        var parent := p[..|p| - 1];
        MkdirAll(parent);
        forall d | d in dirs && d !in was.dirs
          ensures d in src.dirs && d !in was.files && !BehindFile(was, d)
        {
          NotBehind(was, d, parent);
          assert Above(d, p);
        }
        ParentIsThere(was, p);
        assert parent != [] && !BehindFile(was, p) ==> parent in dirs;
        assert BehindFile(was, p) ==> parent !in dirs;
        WriteFile(p, src.files[p]);
      }
    }

    /** The copy walk. */
    method CopyFrom(src: Tree)
      modifies this
      requires WellFormed(src) && WellFormed(Now())
      ensures WellFormed(Now()) && Copied(src, old(Now()), Now())
    {
      ghost var was := Now();
      var walk := WalkDir(src);
      ghost var done: seq<Path> := [];
      for i := 0 to |walk|
        invariant done == walk[..i] && WellFormed(Now()) && CopiedSoFar(src, was, Now(), done)
      {
        assert walk[i] in walk;
        ghost var before := Now();
        CopyEntry(src, walk[i]);
        CopiedOneMore(src, was, before, Now(), done, walk[i]);
        done := done + [walk[i]];
      }
      assert done == walk;
    }

    /** Removes the nested files the source does not have. */
    method Prune(src: Tree, walk: seq<Path>)
      modifies this`files
      requires WellFormed(Now()) && Listing(walk, Now())
      ensures WellFormed(Now())
      ensures forall p :: p in files <==> p in old(files) && (|p| == 1 || Stat(src, p) != NotFound)
      ensures forall p :: p in files ==> files[p] == old(files)[p]
    {
      for i := 0 to |walk|
        invariant WellFormed(Now())
        invariant forall p :: p in files <==> p in old(files) && (|p| == 1 || p !in walk[..i] || Stat(src, p) != NotFound)
        invariant forall p :: p in files ==> files[p] == old(files)[p]
      {
        var p := walk[i];
        assert walk[..i + 1] == walk[..i] + [p];
        if p in files && |p| >= 2 && Stat(src, p) == NotFound {
          files := files - {p};
        }
      }
      assert walk[..|walk|] == walk;
    }

    /** One pass over the listed directories, last first, is enough: what is left has a file
        beneath it. */
    method SweepEmptyDirs(walk: seq<Path>)
      modifies this`dirs
      requires WellFormed(Now())
      requires forall d :: d in dirs ==> d in walk
      requires forall i, j :: 0 <= i < j < |walk| ==> walk[i] != walk[j] && !Above(walk[j], walk[i])
      ensures WellFormed(Now())
      ensures forall d :: d in dirs <==> d in old(dirs) && exists f :: f in files && Above(d, f)
    {
      var i := |walk|;
      while i > 0
        invariant 0 <= i <= |walk| && WellFormed(Now())
        invariant forall d :: d in dirs ==> d in old(dirs)
        invariant forall k :: 0 <= k < i && walk[k] in old(dirs) ==> walk[k] in dirs
        invariant forall k :: i <= k < |walk| && walk[k] in old(dirs) ==>
                    (walk[k] in dirs <==> exists f :: f in files && Above(walk[k], f))
      {
        i := i - 1;
        var d := walk[i];
        if d in dirs {
          RemoveDir(d);
        }
      }
    }

    /** syncBehaviorToDeployed, for a repository that has an agents/ tree. */
    method Sync(src: Tree)
      modifies this
      requires WellFormed(src) && WellFormed(Now())
      ensures WellFormed(Now()) && Synced(src, old(Now()), Now())
      ensures Mirrors(src, Now()) <==> KindsAgree(src, old(Now()))
      ensures forall p :: |p| == 1 && p !in src.files ==>
                (p in files <==> p in old(files)) && (p in files ==> files[p] == old(files)[p])
      ensures forall d :: d in dirs <==> (d in old(dirs) || d in src.dirs) && exists f :: f in files && Above(d, f)
    {
      ghost var was := Now();
      CopyFrom(src);
      var walk := WalkDir(Now());
      Prune(src, walk);
      SweepEmptyDirs(walk);
      MirrorsIff(src, was, Now());
    }

    /** syncBehaviorToDeployed returns at once when there is no repository or it has no agents/ tree. */
    method SyncIfPresent(src: Option<Tree>)
      modifies this
      requires WellFormed(Now()) && (src.Some? ==> WellFormed(src.value))
      ensures WellFormed(Now())
      ensures if src.None? then Now() == old(Now()) else Synced(src.value, old(Now()), Now())
    {
      if src.Some? {
        Sync(src.value);
      }
    }
  }

  /** What a sync leaves behind. */
  ghost predicate Swept(t: Tree) {
    forall d :: d in t.dirs ==> exists f :: f in t.files && Above(d, f)
  }

  /** Syncing a swept tree again: a mirror stays exactly as it is, and a tree whose kinds
      disagree never becomes one, however often it is synced. */
  method SyncAgain(d: Deployed, src: Tree)
    modifies d
    requires WellFormed(src) && WellFormed(d.Now()) && Swept(d.Now())
    ensures WellFormed(d.Now()) && Swept(d.Now()) && Synced(src, old(d.Now()), d.Now())
    ensures Mirrors(src, old(d.Now())) ==> d.Now() == old(d.Now())
    ensures KindsAgree(src, d.Now()) <==> KindsAgree(src, old(d.Now()))
  {
    ghost var was := d.Now();
    d.Sync(src);
    if Mirrors(src, was) {
      MirrorIsFixed(src, was, d.Now());
    }
    DisagreementStays(src, was, d.Now());
  }

  lemma MirrorIsFixed(src: Tree, was: Tree, now: Tree)
    requires WellFormed(src) && WellFormed(was) && WellFormed(now) && Swept(was)
    requires Mirrors(src, was) && Synced(src, was, now)
    ensures now == was
  {
    assert forall p :: p in now.files ==> p in was.files;
    forall p | p in was.files
      ensures p in now.files && now.files[p] == was.files[p]
    {
    }
    assert now.files == was.files;
    forall d
      ensures d in now.dirs <==> d in was.dirs
    {
      if d in now.dirs {
        var f :| f in now.files && Above(d, f);
        assert HasNode(was, f);
      }
      if d in was.dirs {
        var f :| f in was.files && Above(d, f);
        assert HasNode(now, f);
      }
    }
  }

  lemma DisagreementStays(src: Tree, was: Tree, now: Tree)
    requires WellFormed(src) && WellFormed(was) && WellFormed(now) && Swept(was) && Synced(src, was, now)
    ensures KindsAgree(src, now) <==> KindsAgree(src, was)
  {
    if KindsAgree(src, was) {
      MirrorsIff(src, was, now);
    }
    forall p | p in src.files && p in was.dirs
      ensures p in now.dirs
    {
      var f :| f in was.files && Above(p, f);
      BehindOrBeside(src, p, f);
      assert HasNode(src, f) ==> !Above(p, f);
      assert Stat(src, f) == NotADirectory;
      assert HasNode(now, f);
    }
  }
}
