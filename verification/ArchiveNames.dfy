/**
 Names in archives: what normalising makes of them, where extraction puts a file, and which folder
 flattening strips.
 */
module ArchiveNames {
  import opened Text
  import opened ZipLayout
  import opened CatalogRestore

  // ---- what normalising makes of names ----

  /** A single file or folder name. */
  predicate Name(c: string) {
    c != "" && c != "." && c != ".." && '/' !in c && '\\' !in c
  }

  predicate Names(path: seq<string>) {
    forall k :: 0 <= k < |path| ==> Name(path[k])
  }

  function First(c: string): char
    requires c != ""
  {
    c[0]
  }

  function Last(c: string): char
    requires c != ""
  {
    c[|c| - 1]
  }

  /** One part of a relative path, which may climb. */
  predicate Part(c: string) {
    c != "" && '/' !in c && '\\' !in c
  }

  predicate Parts(path: seq<string>) {
    forall k :: 0 <= k < |path| ==> Part(path[k])
  }

  /** The path without outer spaces, which is how it comes out of an archive. */
  function Tidy(path: seq<string>): seq<string> {
    if path == [] then []
    else if |path| == 1 then [TrimSpace(path[0])]
    else [TrimLeft(path[0])] + path[1..|path| - 1] + [TrimRight(path[|path| - 1])]
  }

  /** Still a path when tidied. */
  predicate Stored(path: seq<string>) {
    path != [] && Parts(path) && Parts(Tidy(path)) && Tidy(path)[0] != "."
  }

  lemma {:induction false} JoinShape(path: seq<string>)
    requires path != [] && Parts(path)
    ensures var s := Join(path, '/');
            && s != "" && First(s) == First(path[0]) && Last(s) == Last(path[|path| - 1])
            && '\\' !in s
            && (|s| > 1 && s[1] == '/' ==> |path[0]| == 1)
  {
    if |path| > 1 {
      JoinShape(path[1..]);
    }
  }

  lemma NoDotSlash(path: seq<string>)
    requires path != [] && Parts(path) && path[0] != "."
    ensures !("/" <= Join(path, '/')) && !("./" <= Join(path, '/'))
  {
    var s := Join(path, '/');
    JoinShape(path);
    assert Part(path[0]);
    assert path[0][0] in path[0];
    assert path[0] == "." || |path[0]| > 1 || path[0][0] != '.';
  }

  lemma SlashedIsSame(s: string)
    requires '\\' !in s
    ensures seq(|s|, k requires 0 <= k < |s| => SlashChar(s[k])) == s
  {
    forall k | 0 <= k < |s|
      ensures SlashChar(s[k]) == s[k]
    {
      assert s[k] in s;
    }
  }

  lemma {:induction false} TrimLeftKeepsTail(s: string)
    ensures |TrimLeft(s)| <= |s| && TrimLeft(s) == s[|s| - |TrimLeft(s)|..]
    ensures forall k :: 0 <= k < |s| - |TrimLeft(s)| ==> IsSpace(s[k])
  {
    if s != "" && IsSpace(s[0]) {
      TrimLeftKeepsTail(s[1..]);
    }
  }

  lemma {:induction false} TrimLeftOfSum(a: string, b: string)
    requires TrimLeft(a) != ""
    ensures TrimLeft(a + b) == TrimLeft(a) + b
  {
    if IsSpace(a[0]) {
      assert (a + b)[1..] == a[1..] + b;
      TrimLeftOfSum(a[1..], b);
    }
  }

  lemma {:induction false} TrimRightOfSum(a: string, b: string)
    requires TrimRight(b) != ""
    ensures TrimRight(a + b) == a + TrimRight(b)
  {
    var n := |b| - 1;
    if IsSpace(b[n]) {
      assert (a + b)[..|a + b| - 1] == a + b[..n];
      TrimRightOfSum(a, b[..n]);
    }
  }

  lemma TrimTwice(s: string)
    ensures TrimLeft(TrimLeft(s)) == TrimLeft(s) && TrimRight(TrimRight(s)) == TrimRight(s)
    ensures TrimSpace(TrimSpace(s)) == TrimSpace(s)
  {
    var t := TrimSpace(s);
    assert t != "" ==> t[0] == TrimLeft(s)[0];
  }

  lemma TidyIsClean(path: seq<string>)
    requires Stored(path)
    ensures var t := Tidy(path);
            |t| == |path| && !IsSpace(First(t[0])) && !IsSpace(Last(t[|t| - 1])) && Tidy(t) == t
  {
    var n := |path| - 1;
    TrimTwice(path[0]);
    TrimTwice(path[n]);
    assert Part(Tidy(path)[0]) && Part(Tidy(path)[n]);
  }

  lemma JoinCons(path: seq<string>)
    requires |path| > 1
    ensures Join(path, '/') == path[0] + (['/'] + Join(path[1..], '/'))
  {
  }

  lemma {:induction false} JoinLast(path: seq<string>, last: string)
    requires path != []
    ensures Join(path + [last], '/') == Join(path, '/') + ['/'] + last
  {
    if |path| > 1 {
      JoinLast(path[1..], last);
      assert (path + [last])[1..] == path[1..] + [last];
    } else {
      assert (path + [last])[1..] == [last];
    }
  }

  lemma JoinEnds(path: seq<string>)
    requires |path| > 1
    ensures var n := |path| - 1;
            Join(path, '/') == Join(path[..n], '/') + ['/'] + path[n]
  {
    var n := |path| - 1;
    JoinLast(path[..n], path[n]);
    assert path[..n] + [path[n]] == path;
  }

  lemma TrimOfJoin(path: seq<string>)
    requires Stored(path)
    ensures TrimSpace(Join(path, '/')) == Join(Tidy(path), '/')
  {
    var n, t := |path| - 1, Tidy(path);
    if n > 0 {
      assert Part(t[0]) && Part(t[n]);
      var left := [TrimLeft(path[0])] + path[1..];
      JoinCons(path);
      JoinCons(left);
      assert left[1..] == path[1..];
      TrimLeftOfSum(path[0], ['/'] + Join(path[1..], '/'));
      JoinEnds(left);
      JoinEnds(t);
      assert left[..n] == t[..n] && left[n] == path[n] && t[n] == TrimRight(path[n]);
      TrimRightOfSum(Join(left[..n], '/') + ['/'], path[n]);
    }
  }

  lemma NormalizeStored(path: seq<string>)
    requires Stored(path)
    ensures Normalize(Join(path, '/')) == Join(Tidy(path), '/')
  {
    var s, t := Join(path, '/'), Join(Tidy(path), '/');
    JoinShape(path);
    SlashedIsSame(s);
    TidyIsClean(path);
    TrimOfJoin(path);
    TrimTwice(s);
    NoDotSlash(Tidy(path));
  }

  lemma NamesAreClean(path: seq<string>)
    requires Names(path)
    ensures CleanParts(path) && forall c :: c in path ==> '/' !in c
  {
    forall c | c in path
      ensures c != "" && c != "." && c != ".." && '/' !in c
    {
      var k :| 0 <= k < |path| && path[k] == c;
      assert Name(path[k]);
    }
  }

  lemma {:induction false} CleanOfClean(done: seq<string>, parts: seq<string>, rooted: bool)
    requires Names(parts)
    ensures Clean(done, parts, rooted) == done + parts
    decreases |parts|
  {
    if parts == [] {
      assert done + parts == done;
    } else {
      assert Name(parts[0]);
      CleanOfClean(done + [parts[0]], parts[1..], rooted);
      assert done + [parts[0]] + parts[1..] == done + parts;
    }
  }

  lemma PlacePlain(base: seq<string>, path: seq<string>)
    requires base != [] && path != [] && Names(path)
    ensures Place(base, Join(path, '/')) == Some(path)
  {
    NamesAreClean(path);
    SplitJoin(path, '/');
    assert Parts(path) && Name(path[0]);
    JoinShape(path);
    NoDotSlash(path);
    CleanOfClean([], path, false);
    CleanOfClean(base, path, true);
    assert [] + path == path && Name(path[0]);
    assert (base + path)[|base|..] == path;
  }

  // ---- archives of files ----

  function Packed(path: seq<string>, content: Content): Entry
    requires path != []
  {
    Entry(Join(path, '/'), false, content)
  }

  ghost predicate PackedAt(e: Entry, files: Tree, q: seq<string>) {
    q in files && q != [] && e == Packed(q, files[q])
  }

  /** The archive holds exactly these files, in the given order. */
  ghost predicate ArchiveOf(archive: seq<Entry>, files: Tree, order: seq<seq<string>>) {
    && |order| == |archive|
    && (forall q :: q in files <==> q in order)
    && forall k :: 0 <= k < |order| ==> PackedAt(archive[k], files, order[k])
  }

  /** Where extraction puts it. */
  function Landing(root: Option<string>, path: seq<string>): seq<string> {
    if root.Some? && path != [] then Tidy(path)[1..] else Tidy(path)
  }

  /** The path lies below the folder that is stripped, if one is. */
  predicate Below(root: Option<string>, path: seq<string>) {
    path != [] && (root.Some? ==> |path| > 1 && Tidy(path)[0] == root.value)
  }

  /** It also lands on a path to a file. */
  predicate Under(root: Option<string>, path: seq<string>) {
    Below(root, path) && Names(Landing(root, path))
  }

  lemma StripJoined(root: string, rest: string)
    ensures StripRoot(root + "/" + rest, root) == rest
  {
    assert (root + "/" + rest)[..|root| + 1] == root + "/";
    assert (root + "/" + rest)[|root| + 1..] == rest;
  }

  /** A packed name, normalised and stripped, is the path where the file lands. */
  lemma PackedName(root: Option<string>, path: seq<string>)
    requires Stored(path) && Below(root, path)
    ensures var name := Normalize(Join(path, '/'));
            var to := Landing(root, path);
            && name != "" && to != []
            && (if root.Some? then StripRoot(name, root.value) else name) == Join(to, '/')
  {
    NormalizeStored(path);
    TidyIsClean(path);
    JoinShape(Tidy(path));
    if root.Some? {
      JoinCons(Tidy(path));
      assert Join(Tidy(path), '/') == root.value + "/" + Join(Landing(root, path), '/');
      StripJoined(root.value, Join(Landing(root, path), '/'));
    }
  }

  lemma ExtractPacked(base: seq<string>, root: Option<string>, path: seq<string>, content: Content, tree: Tree)
    requires base != [] && Stored(path) && Under(root, path)
    ensures ExtractOne(base, root, Packed(path, content), tree) == Some(tree[Landing(root, path) := content])
  {
    var name, to := Normalize(Join(path, '/')), Landing(root, path);
    PackedName(root, path);
    var relative := if root.Some? then StripRoot(name, root.value) else name;
    assert relative != "" && Place(base, relative) == Some(to) by {
      assert Parts(to);
      JoinShape(to);
      PlacePlain(base, to);
    }
  }

  lemma ClimbingName(base: seq<string>, path: seq<string>)
    requires path != [] && Parts(path) && path[0] == ".."
    ensures Join(path, '/') != "" && Place(base, Join(path, '/')) == None
  {
    JoinShape(path);
    assert forall c :: c in path ==> Part(c);
    SplitJoin(path, '/');
    assert [] + [".."] == [".."];
    ClimbedOut([".."], path[1..]);
  }

  /** A file that would land above the destination is blocked. */
  lemma ExtractClimbing(base: seq<string>, root: Option<string>, path: seq<string>, content: Content, tree: Tree)
    requires Stored(path) && Below(root, path) && Landing(root, path)[0] == ".."
    ensures ExtractOne(base, root, Packed(path, content), tree) == None
  {
    var name, to := Normalize(Join(path, '/')), Landing(root, path);
    PackedName(root, path);
    var relative := if root.Some? then StripRoot(name, root.value) else name;
    assert relative != "" && Place(base, relative) == None by {
      assert Parts(to);
      ClimbingName(base, to);
    }
  }

  lemma NothingToTrim(s: string)
    requires s != "" && !IsSpace(First(s)) && !IsSpace(Last(s))
    ensures TrimSpace(s) == s
  {
  }

  function Slashed(name: string): (s: string)
    ensures |s| == |name| && forall k :: 0 <= k < |name| ==> s[k] == SlashChar(name[k])
  {
    seq(|name|, k requires 0 <= k < |name| => SlashChar(name[k]))
  }

  lemma {:induction false} SlashedJoin(path: seq<string>)
    requires path != [] && Parts(path)
    ensures Slashed(Join(path, '\\')) == Slashed(Join(path, '/')) == Join(path, '/')
  {
    SlashedIsSame(path[0]);
    assert Slashed(path[0]) == path[0];
    if |path| > 1 {
      SlashedJoin(path[1..]);
      var head, tail := path[0] + ['\\'], Join(path[1..], '\\');
      assert Slashed(head + tail) == Slashed(path[0]) + ['/'] + Slashed(tail);
      assert Slashed(Join(path, '/')) == Slashed(path[0]) + ['/'] + Slashed(Join(path[1..], '/'));
    }
  }

  /** `name` is one of the ways to write a path: with slashes or backslashes, and marked as beginning at the
      archive's own folder or not. */
  predicate Writes(name: string, path: seq<string>)
    requires path != []
  {
    || (exists mark :: mark in ["", "/", "./", "/./"] && name == mark + Join(path, '/'))
    || (exists mark :: mark in ["", "\\", ".\\", "\\.\\"] && name == mark + Join(path, '\\'))
  }

  lemma PrefixGoes(prefix: string, s: string)
    ensures TrimPrefix(prefix + s, prefix) == s
  {
    assert (prefix + s)[..|prefix|] == prefix && (prefix + s)[|prefix|..] == s;
  }

  lemma NormalizeMarked(mark: string, s: string)
    requires mark in ["", "/", "./", "/./"] && s != "" && !IsSpace(First(s)) && !IsSpace(Last(s))
    requires !("/" <= s) && !("./" <= s)
    ensures TrimPrefix(TrimPrefix(TrimSpace(mark + s), "/"), "./") == s
  {
    NothingToTrim(mark + s);
    if mark == "" {
      assert mark + s == s;
    } else if mark == "/" {
      PrefixGoes("/", s);
    } else if mark == "./" {
      assert (mark + s)[0] == '.';
      PrefixGoes("./", s);
    } else {
      assert mark + s == "/" + ("./" + s);
      PrefixGoes("/", "./" + s);
      PrefixGoes("./", s);
    }
  }

  lemma SlashedOf(mark: string, tail: string)
    ensures Slashed(mark + tail) == Slashed(mark) + Slashed(tail)
    ensures mark in ["", "/", "./", "/./"] ==> Slashed(mark) == mark
    ensures Slashed("\\") == "/" && Slashed(".\\") == "./" && Slashed("\\.\\") == "/./"
  {
  }

  lemma SlashedWrites(name: string, path: seq<string>) returns (mark: string)
    requires path != [] && Parts(path) && Writes(name, path)
    ensures mark in ["", "/", "./", "/./"] && Slashed(name) == mark + Join(path, '/')
  {
    SlashedJoin(path);
    if m :| m in ["", "/", "./", "/./"] && name == m + Join(path, '/') {
      SlashedOf(m, Join(path, '/'));
      mark := m;
    } else {
      var m :| m in ["", "\\", ".\\", "\\.\\"] && name == m + Join(path, '\\');
      SlashedOf(m, Join(path, '\\'));
      mark := Slashed(m);
      assert Slashed("") == "";
    }
  }

  lemma NormalizeSpelled(name: string, path: seq<string>)
    requires Stored(path) && Tidy(path) == path && Writes(name, path)
    ensures Normalize(name) == Join(path, '/')
  {
    var s := Join(path, '/');
    var mark := SlashedWrites(name, path);
    TidyIsClean(path);
    JoinShape(path);
    NoDotSlash(path);
    NormalizeMarked(mark, s);
    NothingToTrim(s);
    assert seq(|name|, k requires 0 <= k < |name| => SlashChar(name[k])) == Slashed(name);
  }

  /** However the name of a file is written, it lands in the same place. */
  lemma SpellingsAgree(base: seq<string>, root: Option<string>, name: string, path: seq<string>, content: Content,
                       tree: Tree)
    requires base != [] && Stored(path) && Tidy(path) == path && Under(root, path) && Writes(name, path)
    ensures ExtractOne(base, root, Entry(name, false, content), tree) == Some(tree[Landing(root, path) := content])
  {
    NormalizeSpelled(name, path);
    NormalizeStored(path);
    ExtractPacked(base, root, path, content, tree);
  }

  ghost predicate Adds(step: (Entry, Tree) -> Option<Tree>, e: Entry, q: seq<string>, content: Content) {
    forall t :: step(e, t) == Some(t[q := content])
  }

  lemma PackedAdds(base: seq<string>, root: Option<string>, step: (Entry, Tree) -> Option<Tree>, path: seq<string>,
                   content: Content)
    requires base != [] && Stored(path) && Under(root, path)
    requires forall e, t :: step(e, t) == ExtractOne(base, root, e, t)
    ensures Adds(step, Packed(path, content), Landing(root, path), content)
  {
    forall t
      ensures step(Packed(path, content), t) == Some(t[Landing(root, path) := content])
    {
      ExtractPacked(base, root, path, content, t);
    }
  }

  /** Files written one after the other; a later one replaces an earlier one at the same path. */
  function Laid(paths: seq<seq<string>>, contents: seq<Content>): Tree
    requires |paths| == |contents|
  {
    if paths == [] then map[]
    else
      var n := |paths| - 1;
      Laid(paths[..n], contents[..n])[paths[n] := contents[n]]
  }

  lemma {:induction false} LaidAt(paths: seq<seq<string>>, contents: seq<Content>, p: seq<string>)
    requires |paths| == |contents|
    ensures p in Laid(paths, contents) <==> p in paths
    ensures p in paths ==> exists k :: 0 <= k < |paths| && paths[k] == p && contents[k] == Laid(paths, contents)[p]
  {
    if paths != [] {
      var n := |paths| - 1;
      LaidAt(paths[..n], contents[..n], p);
      assert paths == paths[..n] + [paths[n]];
      if p == paths[n] {
        assert contents[n] == Laid(paths, contents)[p];
      } else if p in paths {
        var k :| 0 <= k < n && paths[..n][k] == p && contents[..n][k] == Laid(paths[..n], contents[..n])[p];
        assert paths[k] == p && contents[k] == Laid(paths, contents)[p];
      }
    }
  }

  /** If each entry adds its own file, all of them add all. */
  lemma {:induction false} ThroughAllAdds(step: (Entry, Tree) -> Option<Tree>, paths: seq<seq<string>>,
                                          contents: seq<Content>, archive: seq<Entry>, tree: Tree, n: nat)
    requires |paths| == |contents| == |archive| && n <= |archive|
    requires forall k :: 0 <= k < |archive| ==> Adds(step, archive[k], paths[k], contents[k])
    ensures ThroughAll(step, archive[..n], tree) == Some(tree + Laid(paths[..n], contents[..n]))
  {
    if n == 0 {
      assert tree + map[] == tree;
    } else {
      ThroughAllAdds(step, paths, contents, archive, tree, n - 1);
      assert Adds(step, archive[n - 1], paths[n - 1], contents[n - 1]);
      assert archive[..n][..n - 1] == archive[..n - 1];
      assert paths[..n][..n - 1] == paths[..n - 1] && contents[..n][..n - 1] == contents[..n - 1];
      var laid := Laid(paths[..n - 1], contents[..n - 1]);
      assert (tree + laid)[paths[n - 1] := contents[n - 1]] == tree + laid[paths[n - 1] := contents[n - 1]];
    }
  }

  function Landings(root: Option<string>, order: seq<seq<string>>): (paths: seq<seq<string>>)
    ensures |paths| == |order| && forall k :: 0 <= k < |order| ==> paths[k] == Landing(root, order[k])
  {
    seq(|order|, k requires 0 <= k < |order| => Landing(root, order[k]))
  }

  function Contents(files: Tree, order: seq<seq<string>>): (contents: seq<Content>)
    requires forall q :: q in order ==> q in files
    ensures |contents| == |order| && forall k :: 0 <= k < |order| ==> contents[k] == files[order[k]]
  {
    seq(|order|, k requires 0 <= k < |order| => files[order[k]])
  }

  /** What an archive of these files puts into a folder. */
  function Landed(root: Option<string>, files: Tree, order: seq<seq<string>>): Tree
    requires forall q :: q in order ==> q in files
  {
    Laid(Landings(root, order), Contents(files, order))
  }

  /** A file is there exactly when some packed file lands there, with the contents of one that does. */
  lemma LandedAt(root: Option<string>, files: Tree, order: seq<seq<string>>, p: seq<string>)
    requires (forall q :: q in order <==> q in files) && [] !in files
    ensures p in Landed(root, files, order) <==> exists q :: q in files && Landing(root, q) == p
    ensures p in Landed(root, files, order) ==>
              exists q :: q in files && Landing(root, q) == p && files[q] == Landed(root, files, order)[p]
  {
    var paths, contents := Landings(root, order), Contents(files, order);
    LaidAt(paths, contents, p);
    if q :| q in files && Landing(root, q) == p {
      var k :| 0 <= k < |order| && order[k] == q;
      assert paths[k] == p;
    }
    if p in paths {
      var k :| 0 <= k < |paths| && paths[k] == p && contents[k] == Laid(paths, contents)[p];
      assert order[k] in order && Landing(root, order[k]) == p && files[order[k]] == contents[k];
    }
  }

  lemma NonemptyPath(archive: seq<Entry>, files: Tree, order: seq<seq<string>>)
    requires ArchiveOf(archive, files, order)
    ensures [] !in files && forall q :: q in order ==> q in files && q != []
  {
    forall q | q in order
      ensures q in files && q != []
    {
      var k :| 0 <= k < |order| && order[k] == q;
      assert PackedAt(archive[k], files, q);
    }
  }

  /** If each entry adds its own file, the archive adds what lands. */
  lemma AllAdd(step: (Entry, Tree) -> Option<Tree>, paths: seq<seq<string>>, contents: seq<Content>,
               archive: seq<Entry>, tree: Tree)
    requires |paths| == |contents| == |archive|
    requires forall k :: 0 <= k < |archive| ==> Adds(step, archive[k], paths[k], contents[k])
    ensures ThroughAll(step, archive, tree) == Some(tree + Laid(paths, contents))
  {
    ThroughAllAdds(step, paths, contents, archive, tree, |archive|);
    assert archive[..|archive|] == archive && paths[..|archive|] == paths && contents[..|archive|] == contents;
  }

  /** Extracting an archive of files puts each where it lands. */
  lemma ExtractsTo(base: seq<string>, root: Option<string>, files: Tree, order: seq<seq<string>>, archive: seq<Entry>,
                   tree: Tree)
    requires base != [] && ArchiveOf(archive, files, order)
    requires forall q :: q in files ==> Stored(q) && Under(root, q)
    ensures forall q :: q in order ==> q in files
    ensures ExtractAll(base, root, archive, tree) == Some(tree + Landed(root, files, order))
  {
    var step := (e, t) => ExtractOne(base, root, e, t);
    forall k | 0 <= k < |archive|
      ensures order[k] in files && Adds(step, archive[k], Landing(root, order[k]), files[order[k]])
    {
      assert PackedAt(archive[k], files, order[k]);
      PackedAdds(base, root, step, order[k], files[order[k]]);
    }
    AllAdd(step, Landings(root, order), Contents(files, order), archive, tree);
  }

  // ---- which folder is stripped ----

  function LevelOfPath(path: seq<string>): Level {
    if |path| > 1 then Inside(path[0]) else TopFile
  }

  lemma PackedLevel(path: seq<string>, content: Content)
    requires Stored(path)
    ensures LevelOf(Packed(path, content)) == LevelOfPath(Tidy(path))
  {
    var full := Tidy(path);
    NormalizeStored(path);
    TidyIsClean(path);
    JoinShape(full);
    assert forall c :: c in full ==> Part(c);
    SplitJoin(full, '/');
  }

  /** All files lie below one top-level folder. */
  predicate OneFolder(files: Tree, root: string) {
    files != map[] && forall q :: q in files ==> q != [] && LevelOfPath(Tidy(q)) == Inside(root)
  }

  /** The levels are those of the files' tidied paths. */
  ghost predicate LevelsMatch(levels: set<Level>, files: Tree) {
    && (forall q :: q in files ==> LevelOfPath(Tidy(q)) in levels)
    && (forall l :: l in levels ==> exists q :: q in files && l == LevelOfPath(Tidy(q)))
  }

  lemma LevelsOfArchive(archive: seq<Entry>, files: Tree, order: seq<seq<string>>)
    requires ArchiveOf(archive, files, order) && forall q :: q in files ==> Stored(q)
    ensures LevelsMatch(Levels(archive), files)
  {
    forall k | 0 <= k < |archive|
      ensures order[k] in files && LevelOf(archive[k]) == LevelOfPath(Tidy(order[k]))
    {
      assert PackedAt(archive[k], files, order[k]);
      PackedLevel(order[k], files[order[k]]);
    }
    forall q | q in files
      ensures LevelOfPath(Tidy(q)) in Levels(archive)
    {
      var k :| 0 <= k < |order| && order[k] == q;
      assert archive[k] in archive;
    }
    forall l | l in Levels(archive)
      ensures exists q :: q in files && l == LevelOfPath(Tidy(q))
    {
      var k :| 0 <= k < |archive| && LevelOf(archive[k]) == l;
      assert l == LevelOfPath(Tidy(order[k]));
    }
  }

  lemma OnlyRootIff(levels: set<Level>, files: Tree, root: string)
    requires LevelsMatch(levels, files) && [] !in files
    ensures OnlyRoot(levels, root) <==> OneFolder(files, root)
  {
    if OneFolder(files, root) {
      var o :| o in files;
      assert LevelOfPath(Tidy(o)) == Inside(root) && LevelOfPath(Tidy(o)) in levels;
    }
    if OnlyRoot(levels, root) {
      forall q | q in files
        ensures LevelOfPath(Tidy(q)) == Inside(root)
      {
        assert LevelOfPath(Tidy(q)) in levels;
      }
    }
  }

  /** The archive has a wrapper folder exactly when its files all lie in one folder. */
  lemma SingleRootIff(archive: seq<Entry>, files: Tree, order: seq<seq<string>>, root: string)
    requires ArchiveOf(archive, files, order) && forall q :: q in files ==> Stored(q)
    ensures SingleRoot(archive, root) <==> OneFolder(files, root)
  {
    LevelsOfArchive(archive, files, order);
    OnlyRootIff(Levels(archive), files, root);
  }

  lemma StripsIff(archive: seq<Entry>, files: Tree, order: seq<seq<string>>, root: Option<string>)
    requires ArchiveOf(archive, files, order) && forall q :: q in files ==> Stored(q)
    ensures Strips(archive, true, root) <==>
            if root.Some? then OneFolder(files, root.value) else forall r :: !OneFolder(files, r)
  {
    forall r
      ensures SingleRoot(archive, r) <==> OneFolder(files, r)
    {
      SingleRootIff(archive, files, order, r);
    }
  }

  /** Flattening strips a folder exactly when all files lie in it, and puts each file where it lands. */
  lemma FlattenedTo(base: seq<string>, root: Option<string>, files: Tree, order: seq<seq<string>>,
                    archive: seq<Entry>, tree: Tree)
    requires base != [] && ArchiveOf(archive, files, order) && Strips(archive, true, root)
    requires forall q :: q in files ==> Stored(q) && Names(Landing(root, q))
    ensures if root.Some? then OneFolder(files, root.value) else forall r :: !OneFolder(files, r)
    ensures forall q :: q in order ==> q in files
    ensures ExtractAll(base, root, archive, tree) == Some(tree + Landed(root, files, order))
  {
    StripsIff(archive, files, order, root);
    forall q | q in files
      ensures Under(root, q)
    {
      assert root.Some? ==> LevelOfPath(Tidy(q)) == Inside(root.value);
    }
    ExtractsTo(base, root, files, order, archive, tree);
  }

  /** The same files below one more folder. */
  function Wrapped(wrapper: string, files: Tree): Tree {
    map q | q in (set i | i in files :: [wrapper] + i) && q[1..] in files :: files[q[1..]]
  }

  lemma WrappedAt(wrapper: string, files: Tree, q: seq<string>)
    ensures q in Wrapped(wrapper, files) <==> q != [] && q[0] == wrapper && q[1..] in files
    ensures q in Wrapped(wrapper, files) ==> Wrapped(wrapper, files)[q] == files[q[1..]]
  {
    if q != [] && q[0] == wrapper && q[1..] in files {
      assert q == [wrapper] + q[1..];
    }
  }

  /** Names that the wrapper does not change: only its own outer spaces are lost. */
  predicate Wrappable(wrapper: string, q: seq<string>) {
    && q != [] && Names(q) && Stored([wrapper] + q)
    && Tidy([wrapper] + q) == [TrimLeft(wrapper)] + q
  }

  lemma WrappedFiles(wrapper: string, files: Tree)
    requires files != map[] && forall q :: q in files ==> Wrappable(wrapper, q)
    ensures forall q :: q in Wrapped(wrapper, files) ==> Stored(q) && Tidy(q)[1..] == q[1..] && Names(q[1..])
    ensures OneFolder(Wrapped(wrapper, files), TrimLeft(wrapper))
  {
    forall q | q in Wrapped(wrapper, files)
      ensures Stored(q) && Tidy(q)[1..] == q[1..] && Names(q[1..]) && LevelOfPath(Tidy(q)) == Inside(TrimLeft(wrapper))
    {
      WrappedAt(wrapper, files, q);
      assert q == [wrapper] + q[1..];
      assert Wrappable(wrapper, q[1..]);
    }
    var i :| i in files;
    WrappedAt(wrapper, files, [wrapper] + i);
  }

  lemma UnwrappedAt(wrapper: string, files: Tree, root: string, order: seq<seq<string>>, p: seq<string>)
    requires forall q :: q in order <==> q in Wrapped(wrapper, files)
    requires forall q :: q in files ==> Wrappable(wrapper, q)
    ensures p in Landed(Some(root), Wrapped(wrapper, files), order) <==> p in files
    ensures p in files ==> Landed(Some(root), Wrapped(wrapper, files), order)[p] == files[p]
  {
    WrappedAt(wrapper, files, []);
    LandedAt(Some(root), Wrapped(wrapper, files), order, p);
    WrappedAt(wrapper, files, [wrapper] + p);
    if p in files {
      assert Wrappable(wrapper, p);
      assert Landing(Some(root), [wrapper] + p) == p;
    }
    forall q | q in Wrapped(wrapper, files) && Landing(Some(root), q) == p
      ensures p in files && Wrapped(wrapper, files)[q] == files[p]
    {
      WrappedAt(wrapper, files, q);
      assert Wrappable(wrapper, q[1..]) && q == [wrapper] + q[1..];
    }
  }

  lemma Unwrapped(wrapper: string, files: Tree, root: string, order: seq<seq<string>>)
    requires forall q :: q in order <==> q in Wrapped(wrapper, files)
    requires forall q :: q in files ==> Wrappable(wrapper, q)
    ensures Landed(Some(root), Wrapped(wrapper, files), order) == files
  {
    var landed := Landed(Some(root), Wrapped(wrapper, files), order);
    forall p
      ensures p in landed <==> p in files
      ensures p in files ==> landed[p] == files[p]
    {
      UnwrappedAt(wrapper, files, root, order, p);
    }
  }

  /** A tree wrapped in one folder comes out of extraction as the tree itself, whatever it is. */
  lemma WrapperVanishes(base: seq<string>, wrapper: string, files: Tree, order: seq<seq<string>>, archive: seq<Entry>,
                        tree: Tree, root: Option<string>)
    requires base != [] && files != map[] && ArchiveOf(archive, Wrapped(wrapper, files), order)
    requires forall q :: q in files ==> Wrappable(wrapper, q)
    requires Strips(archive, true, root)
    ensures root == Some(TrimLeft(wrapper)) && ExtractAll(base, root, archive, tree) == Some(tree + files)
  {
    var whole, stripped := Wrapped(wrapper, files), TrimLeft(wrapper);
    WrappedFiles(wrapper, files);
    StripsIff(archive, whole, order, root);
    var q :| q in whole;
    assert LevelOfPath(Tidy(q)) == Inside(stripped);
    assert root == Some(stripped);
    FlattenedTo(base, root, whole, order, archive, tree);
    Unwrapped(wrapper, files, stripped, order);
  }
}
