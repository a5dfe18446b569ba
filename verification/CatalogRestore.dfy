/**
 The restore of a zip over a catalog folder: cleanup by patterns, extraction, and a second cleanup of
 transient files.
 */
module CatalogRestore {
  import opened Text
  import opened ZipLayout

  /** The files of a folder, by the components of their relative path. */
  type Tree = map<seq<string>, Content>

  lemma SameTree(a: Tree, b: Tree)
    requires forall q :: (q in a <==> q in b) && (q in a ==> a[q] == b[q])
    ensures a == b
  {
  }

  datatype Pattern = Star(suffix: string) | Exactly(name: string)

  const CLEANUP := [
    Star(".lrcat"), Star(".lrcat-data"), Star(".lrcat-journal"), Star(".lrcat.lock"), Star(".lrdata"),
    Exactly("lightroom_lock.txt"), Star("-lock"), Star("-shm"), Star("-wal")]

  const ARTIFACTS := [Star(".lrcat"), Star(".lrcat-data"), Star(".lrcat-journal"), Star(".lrcat.lock"), Star(".lrdata")]

  predicate IsTransient(p: Pattern) {
    p in [Star(".lrcat.lock"), Star(".lrcat-journal"), Exactly("lightroom_lock.txt"), Star("-lock"), Star("-shm"),
      Star("-wal")]
  }

  /** The patterns swept again after extraction. */
  function TransientOf(patterns: seq<Pattern>): (r: seq<Pattern>)
    ensures forall p :: p in r <==> p in patterns && IsTransient(p)
  {
    if patterns == [] then []
    else if IsTransient(patterns[0]) then [patterns[0]] + TransientOf(patterns[1..])
    else TransientOf(patterns[1..])
  }

  predicate MatchesCase(pattern: Pattern, name: string) {
    match pattern
    case Star(suffix) => HasSuffix(name, suffix)
    case Exactly(n) => name == n
  }

  /** Cleanup also tries both sides in lower case. */
  predicate Matches(pattern: Pattern, name: string) {
    MatchesCase(pattern, name) || MatchesCase(pattern, Lower(name))
  }

  predicate MatchesAny(patterns: seq<Pattern>, name: string) {
    exists p :: p in patterns && Matches(p, name)
  }

  predicate MatchesAnyCase(patterns: seq<Pattern>, name: string) {
    exists p :: p in patterns && MatchesCase(p, name)
  }

  /** Some file or folder on the way to `path`, or `path` itself, matches. */
  predicate Swept(patterns: seq<Pattern>, path: seq<string>) {
    exists k :: 0 <= k < |path| && MatchesAny(patterns, path[k])
  }

  // ---- cleanup ----

  /** What the walk collects: every file or folder whose own name matches. */
  function Collected(patterns: seq<Pattern>, tree: Tree): set<seq<string>> {
    set q, k | q in tree && 0 < k <= |q| && MatchesAny(patterns, q[k - 1]) :: q[..k]
  }

  predicate Below(doomed: set<seq<string>>, q: seq<string>) {
    exists d :: d in doomed && d <= q
  }

  function Remaining(tree: Tree, doomed: set<seq<string>>): Tree {
    map q | q in tree && !Below(doomed, q) :: tree[q]
  }

  /** The tree without everything that a pattern matches, at any depth. */
  function Cleaned(patterns: seq<Pattern>, tree: Tree): Tree {
    map q | q in tree && !Swept(patterns, q) :: tree[q]
  }

  function RemoveAll(tree: Tree, doomed: seq<string>): Tree {
    map q | q in tree && !(doomed <= q) :: tree[q]
  }

  lemma RemoveOneMore(tree: Tree, gone: set<seq<string>>, doomed: seq<string>)
    ensures RemoveAll(Remaining(tree, gone), doomed) == Remaining(tree, gone + {doomed})
  {
    forall q
      ensures Below(gone + {doomed}, q) <==> Below(gone, q) || doomed <= q
    {
      if Below(gone, q) {
        var d :| d in gone && d <= q;
        assert d in gone + {doomed};
      }
      if doomed <= q {
        assert doomed in gone + {doomed};
      }
    }
  }

  lemma SweptIffCollected(patterns: seq<Pattern>, tree: Tree, q: seq<string>)
    requires q in tree
    ensures Swept(patterns, q) <==> Below(Collected(patterns, tree), q)
  {
    if Swept(patterns, q) {
      var k :| 0 <= k < |q| && MatchesAny(patterns, q[k]);
      assert q[..k + 1] in Collected(patterns, tree) && q[..k + 1] <= q;
    }
    if d :| d in Collected(patterns, tree) && d <= q {
      var o, k :| o in tree && 0 < k <= |o| && MatchesAny(patterns, o[k - 1]) && d == o[..k];
      assert q[k - 1] == d[k - 1];
    }
  }

  lemma AllCollectedRemoved(patterns: seq<Pattern>, tree: Tree)
    ensures Remaining(tree, Collected(patterns, tree)) == Cleaned(patterns, tree)
  {
    forall q | q in tree
      ensures Swept(patterns, q) <==> Below(Collected(patterns, tree), q)
    {
      SweptIffCollected(patterns, tree, q);
    }
  }

  /** Removes every collected file and folder with all it holds, in any order. */
  method Cleanup(patterns: seq<Pattern>, tree: Tree) returns (after: Tree)
    ensures after == Cleaned(patterns, tree)
  {
    after := tree;
    var todo := Collected(patterns, tree);
    ghost var gone := {};
    assert Remaining(tree, {}) == tree;
    while todo != {}
      invariant todo !! gone && todo + gone == Collected(patterns, tree)
      invariant after == Remaining(tree, gone)
    {
      var doomed :| doomed in todo;
      after := RemoveAll(after, doomed);
      RemoveOneMore(tree, gone, doomed);
      todo, gone := todo - {doomed}, gone + {doomed};
    }
    AllCollectedRemoved(patterns, tree);
  }

  // ---- extraction ----

  /** One entry: None when it is blocked, or is a file with the destination's own place. */
  function ExtractOne(base: seq<string>, root: Option<string>, e: Entry, tree: Tree): Option<Tree> {
    var name := Normalize(e.name);
    var relative := if root.Some? then StripRoot(name, root.value) else name;
    if name == "" || relative == "" then Some(tree)
    else
      match Place(base, relative)
      case None => None
      case Some(path) =>
        if e.isDir then Some(tree)
        else if path == [] then None
        else Some(tree[path := e.content])
  }

  /** Goes through the entries in order until one is blocked. */
  function ThroughAll(step: (Entry, Tree) -> Option<Tree>, archive: seq<Entry>, tree: Tree): Option<Tree> {
    if archive == [] then Some(tree)
    else
      match ThroughAll(step, archive[..|archive| - 1], tree)
      case None => None
      case Some(before) => step(archive[|archive| - 1], before)
  }

  function ExtractAll(base: seq<string>, root: Option<string>, archive: seq<Entry>, tree: Tree): Option<Tree> {
    ThroughAll((e, t) => ExtractOne(base, root, e, t), archive, tree)
  }

  /** The folder to strip, when flattening is on. */
  ghost predicate Strips(archive: seq<Entry>, flatten: bool, root: Option<string>) {
    match root
    case Some(r) => flatten && SingleRoot(archive, r)
    case None => flatten ==> forall r :: !SingleRoot(archive, r)
  }

  method RootToStrip(archive: seq<Entry>, flatten: bool) returns (root: Option<string>)
    ensures Strips(archive, flatten, root)
  {
    if !flatten {
      return None;
    }
    var levels := seq(|archive|, k requires 0 <= k < |archive| => LevelOf(archive[k]));
    root := DetectSingleRoot(levels);
    forall k | 0 <= k < |archive|
      ensures LevelOf(archive[k]) in levels
    {
      assert levels[k] == LevelOf(archive[k]);
    }
    assert SetOf(levels) == Levels(archive);
  }

  /** The extraction loop: it stops at the first entry that is blocked; what came before it stays. */
  method ExtractEntries(step: (Entry, Tree) -> Option<Tree>, archive: seq<Entry>, tree: Tree)
    returns (after: Tree, ok: bool, stop: nat)
    ensures ThroughAll(step, archive, tree) == if ok then Some(after) else None
    ensures !ok ==> stop < |archive| && step(archive[stop], after).None?
    ensures !ok ==> ThroughAll(step, archive[..stop], tree) == Some(after)
  {
    after, ok := tree, true;
    var i := 0;
    while i < |archive| && ok
      invariant 0 <= i <= |archive|
      invariant ThroughAll(step, archive[..i], tree) == Some(after)
      invariant !ok ==> i < |archive| && step(archive[i], after).None?
      decreases |archive| - i, ok
    {
      assert archive[..i + 1][..i] == archive[..i];
      match step(archive[i], after) {
        case None =>
          ok := false;
        case Some(next) =>
          after := next;
          i := i + 1;
      }
    }
    stop := i;
    if ok {
      assert archive[..i] == archive;
    } else {
      assert archive[..i + 1][..i] == archive[..i];
      StaysBlocked(step, archive, tree, i + 1);
    }
  }

  /** Extracts in archive order, without the wrapper folder when flattening finds one. */
  method ExtractZipSafe(archive: seq<Entry>, base: seq<string>, flatten: bool, tree: Tree)
    returns (after: Tree, ok: bool, root: Option<string>, stop: nat)
    ensures Strips(archive, flatten, root)
    ensures ExtractAll(base, root, archive, tree) == if ok then Some(after) else None
    ensures !ok ==> stop < |archive| && ExtractOne(base, root, archive[stop], after).None?
    ensures !ok ==> ExtractAll(base, root, archive[..stop], tree) == Some(after)
  {
    var strip := RootToStrip(archive, flatten);
    root := strip;
    after, ok, stop := ExtractEntries((e, t) => ExtractOne(base, strip, e, t), archive, tree);
  }

  lemma {:induction false} StaysBlocked(step: (Entry, Tree) -> Option<Tree>, archive: seq<Entry>, tree: Tree, i: nat)
    requires i <= |archive| && ThroughAll(step, archive[..i], tree).None?
    ensures ThroughAll(step, archive, tree).None?
    decreases |archive| - i
  {
    if i < |archive| {
      assert archive[..i + 1][..i] == archive[..i];
      StaysBlocked(step, archive, tree, i + 1);
    } else {
      assert archive[..i] == archive;
    }
  }

  function FilesOf(archive: seq<Entry>): seq<Entry> {
    if archive == [] then []
    else
      var n := |archive| - 1;
      FilesOf(archive[..n]) + if archive[n].isDir then [] else [archive[n]]
  }

  /** Folder entries add nothing, unless one is blocked. */
  lemma {:induction false} FoldersAddNothing(base: seq<string>, root: Option<string>, archive: seq<Entry>, tree: Tree)
    requires ExtractAll(base, root, archive, tree).Some?
    ensures ExtractAll(base, root, FilesOf(archive), tree) == ExtractAll(base, root, archive, tree)
  {
    if archive != [] {
      var n := |archive| - 1;
      FoldersAddNothing(base, root, archive[..n], tree);
      var front := FilesOf(archive[..n]);
      if !archive[n].isDir {
        assert (front + [archive[n]])[..|front|] == front;
      } else {
        assert front + [] == front;
      }
    }
  }

  // ---- restore ----

  /** Cleanup, extraction with flattening, and cleanup of transient files. */
  function Restored(base: seq<string>, root: Option<string>, archive: seq<Entry>, tree: Tree): Option<Tree> {
    match ExtractAll(base, root, archive, Cleaned(CLEANUP, tree))
    case None => None
    case Some(extracted) => Some(Cleaned(TransientOf(CLEANUP), extracted))
  }

  /** An archive that fails the integrity check touches nothing. One with a blocked entry leaves the
      cleaned folder with what came before that entry. */
  method RestoreCatalogFromZip(archive: seq<Entry>, intact: bool, base: seq<string>, tree: Tree)
    returns (after: Tree, ok: bool, root: Option<string>, stop: nat)
    ensures !intact ==> !ok && after == tree
    ensures intact ==> Strips(archive, true, root)
    ensures ok <==> intact && Restored(base, root, archive, tree).Some?
    ensures ok ==> Restored(base, root, archive, tree) == Some(after)
    ensures intact && !ok ==>
              && stop < |archive| && ExtractOne(base, root, archive[stop], after).None?
              && ExtractAll(base, root, archive[..stop], Cleaned(CLEANUP, tree)) == Some(after)
  {
    if !intact {
      return tree, false, None, 0;
    }
    after := Cleanup(CLEANUP, tree);
    after, ok, root, stop := ExtractZipSafe(archive, base, true, after);
    if ok {
      after := Cleanup(TransientOf(CLEANUP), after);
    }
  }
}
