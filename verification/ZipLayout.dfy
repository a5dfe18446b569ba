/**
 Names inside zip archives: normalising them, recognising a wrapper folder, and placing them below
 a destination folder. A path is also seen as the sequence of its components.
 */
module ZipLayout {
  import opened Sets
  import opened Text

  type Content = string

  datatype Entry = Entry(name: string, isDir: bool, content: Content)

  function SlashChar(c: char): char {
    if c == '\\' then '/' else c
  }

  function TrimPrefix(s: string, prefix: string): string {
    if prefix <= s then s[|prefix|..] else s
  }

  function Normalize(name: string): string {
    var slashed := seq(|name|, k requires 0 <= k < |name| => SlashChar(name[k]));
    TrimSpace(TrimPrefix(TrimPrefix(TrimSpace(slashed), "/"), "./"))
  }

  // ---- the wrapper folder ----

  /** Where an entry lies: its name is empty, it is a file or folder at the top, or it is inside a
      top-level folder. */
  datatype Level = Nowhere | TopFile | TopFolder | Inside(root: string)

  function LevelOf(e: Entry): Level {
    var name := Normalize(e.name);
    var parts := Split(name, '/');
    if name == "" then Nowhere
    else if |parts| > 1 then Inside(parts[0])
    else if e.isDir then TopFolder else TopFile
  }

  function Levels(archive: seq<Entry>): set<Level> {
    set e | e in archive :: LevelOf(e)
  }

  function SetOf(levels: seq<Level>): set<Level> {
    set l | l in levels
  }

  /** No file lies at the top, and `root` is the only top-level folder with something inside. */
  predicate OnlyRoot(levels: set<Level>, root: string) {
    TopFile !in levels && Inside(root) in levels && forall l :: l in levels && l.Inside? ==> l.root == root
  }

  predicate SingleRoot(archive: seq<Entry>, root: string) {
    OnlyRoot(Levels(archive), root)
  }

  /** Finds the wrapper folder. The loop stops early in two ways, but by its contract the answer depends
      on the set of levels only, not on the order of the entries. */
  method DetectSingleRoot(levels: seq<Level>) returns (root: Option<string>)
    ensures root.Some? ==> OnlyRoot(SetOf(levels), root.value)
    ensures root.None? ==> forall r :: !OnlyRoot(SetOf(levels), r)
  {
    var roots: set<string> := {};
    var hasRootFile, i := false, 0;
    while i < |levels| && !hasRootFile
      invariant 0 <= i <= |levels| && |roots| <= 1
      invariant forall r :: r in roots <==> Inside(r) in levels[..i]
      invariant hasRootFile <==> TopFile in levels[..i]
    {
      assert levels[..i + 1] == levels[..i] + [levels[i]];
      if levels[i].TopFile? {
        hasRootFile := true;
      } else if levels[i].Inside? {
        roots := roots + {levels[i].root};
        if |roots| > 1 {
          forall r
            ensures !OnlyRoot(SetOf(levels), r)
          {
            if roots <= {r} {
              Smaller(roots, {r});
            }
            var other :| other in roots && other != r;
            assert Inside(other) in levels;
          }
          return None;
        }
      }
      i := i + 1;
    }
    if hasRootFile {
      return None;
    }
    assert levels[..i] == levels;
    if roots == {} {
      return None;
    }
    var only :| only in roots;
    Singleton(roots, only);
    return Some(only);
  }

  lemma Singleton<T>(s: set<T>, x: T)
    requires |s| == 1 && x in s
    ensures s == {x}
  {
    assert |s - {x}| == 0;
  }

  /** Two orders of the same entries have the same wrapper folder. */
  lemma OrderDoesNotMatter(archive: seq<Entry>, shuffled: seq<Entry>, root: string)
    requires forall e :: e in archive <==> e in shuffled
    ensures SingleRoot(archive, root) <==> SingleRoot(shuffled, root)
  {
    assert Levels(archive) == Levels(shuffled);
  }

  lemma LevelsOfSum(archive: seq<Entry>, e: Entry)
    ensures Levels(archive + [e]) == Levels(archive) + {LevelOf(e)}
  {
    assert forall f :: f in archive + [e] <==> f in archive || f == e;
  }

  /** A folder entry at the top never matters, and one for the wrapper itself keeps it; a file at the top ends it. */
  lemma EntriesAtTheTop(archive: seq<Entry>, e: Entry, root: string)
    requires '/' !in root
    ensures e.isDir && '/' !in Normalize(e.name) ==>
              (SingleRoot(archive + [e], root) <==> SingleRoot(archive, root))
    ensures Normalize(e.name) == root + "/" && SingleRoot(archive, root) ==> SingleRoot(archive + [e], root)
    ensures !e.isDir && Normalize(e.name) != "" && '/' !in Normalize(e.name) ==> !SingleRoot(archive + [e], root)
  {
    var name := Normalize(e.name);
    LevelsOfSum(archive, e);
    if '/' !in name {
      SplitPart(name, '/');
    }
    if name == root + "/" {
      assert name == root + ['/'] + "";
      SplitHead(root, "", '/');
    }
  }

  function StripRoot(path: string, root: string): string {
    TrimPrefix(path, root + "/")
  }

  /** In an archive with a wrapper folder stripping it loses nothing: different files keep
      different names. */
  lemma StrippingIsInjective(archive: seq<Entry>, root: string, a: Entry, b: Entry)
    requires SingleRoot(archive, root) && a in archive && b in archive && !a.isDir && !b.isDir
    requires Normalize(a.name) != "" && Normalize(b.name) != ""
    requires StripRoot(Normalize(a.name), root) == StripRoot(Normalize(b.name), root)
    ensures Normalize(a.name) == Normalize(b.name)
  {
    BelowRoot(archive, root, a);
    BelowRoot(archive, root, b);
  }

  lemma BelowRoot(archive: seq<Entry>, root: string, e: Entry)
    requires SingleRoot(archive, root) && e in archive && !e.isDir && Normalize(e.name) != ""
    ensures Normalize(e.name) == root + "/" + StripRoot(Normalize(e.name), root)
  {
    var name := Normalize(e.name);
    var parts := Split(name, '/');
    assert LevelOf(e) in Levels(archive);
    assert LevelOf(e) == Inside(root);
    JoinSplit(name, '/');
    assert name == root + ['/'] + Join(parts[1..], '/');
    assert name[..|root| + 1] == root + "/";
  }

  // ---- placing a name below a folder ----

  /** `filepath.Clean` on components: empty and dot components vanish, a double dot removes the
      component before it, and at the top stays (in a relative path) or vanishes (in a rooted one). */
  function Clean(done: seq<string>, parts: seq<string>, rooted: bool): seq<string>
    decreases |parts|
  {
    if parts == [] then done
    else if parts[0] == "" || parts[0] == "." then Clean(done, parts[1..], rooted)
    else if parts[0] != ".." then Clean(done + [parts[0]], parts[1..], rooted)
    else if done != [] && done[|done| - 1] != ".." then Clean(done[..|done| - 1], parts[1..], rooted)
    else if rooted then Clean(done, parts[1..], rooted)
    else Clean(done + [".."], parts[1..], rooted)
  }

  predicate Rooted(path: string) {
    path != "" && path[0] == '/'
  }

  /** The name climbs out of the folder it is relative to. */
  predicate Unsafe(path: string) {
    var clean := Clean([], Split(path, '/'), Rooted(path));
    clean != [] && clean[0] == ".."
  }

  /** The absolute place of a name below `base`. */
  function Target(base: seq<string>, path: string): seq<string> {
    Clean(base, Split(path, '/'), true)
  }

  /** The prefix test with a separator appended fails for the root folder itself. */
  predicate WithinBase(target: seq<string>, base: seq<string>) {
    target == base || (base != [] && base < target)
  }

  /** A path without empty, dot or double-dot components. */
  predicate CleanParts(parts: seq<string>) {
    forall c :: c in parts ==> c != "" && c != "." && c != ".."
  }

  lemma {:induction false} ClimbedOut(done: seq<string>, parts: seq<string>)
    requires done != [] && done[0] == ".."
    ensures var clean := Clean(done, parts, false); clean != [] && clean[0] == ".."
    decreases |parts|
  {
    if parts != [] {
      if parts[0] == "" || parts[0] == "." {
        ClimbedOut(done, parts[1..]);
      } else if parts[0] != ".." {
        ClimbedOut(done + [parts[0]], parts[1..]);
      } else if done[|done| - 1] != ".." {
        ClimbedOut(done[..|done| - 1], parts[1..]);
      } else {
        ClimbedOut(done + [".."], parts[1..]);
      }
    }
  }

  lemma FrontIsClean(done: seq<string>)
    requires CleanParts(done) && done != []
    ensures CleanParts(done[..|done| - 1])
  {
    var front := done[..|done| - 1];
    forall c | c in front
      ensures c != "" && c != "." && c != ".."
    {
      assert c in done;
    }
  }

  /** A relative name that does not climb out cleans to the same components below any folder. */
  lemma {:induction false} CleanBelow(base: seq<string>, done: seq<string>, parts: seq<string>)
    requires CleanParts(base) && CleanParts(done)
    requires var clean := Clean(done, parts, false); clean == [] || clean[0] != ".."
    ensures Clean(base + done, parts, true) == base + Clean(done, parts, false)
    decreases |parts|
  {
    if parts != [] {
      if parts[0] == "" || parts[0] == "." {
        CleanBelow(base, done, parts[1..]);
      } else if parts[0] != ".." {
        CleanBelow(base, done + [parts[0]], parts[1..]);
        assert base + done + [parts[0]] == base + (done + [parts[0]]);
      } else if done != [] {
        assert done[|done| - 1] in done;
        FrontIsClean(done);
        CleanBelow(base, done[..|done| - 1], parts[1..]);
        assert (base + done)[..|base + done| - 1] == base + done[..|done| - 1];
      } else {
        ClimbedOut(done + [".."], parts[1..]);
      }
    }
  }

  /** For a relative name the first test suffices: if it does not climb out, its place lies within the
      base, unless the base is the root folder, where only the base itself passes the second test. */
  lemma SafeNamesStayWithin(base: seq<string>, path: string)
    requires CleanParts(base) && !Rooted(path) && !Unsafe(path)
    ensures base <= Target(base, path)
    ensures WithinBase(Target(base, path), base) <==> base != [] || Target(base, path) == base
  {
    CleanBelow(base, [], Split(path, '/'));
    assert base + [] == base;
  }

  /** Where an entry goes, relative to the destination; None when either test blocks it. */
  function Place(base: seq<string>, path: string): (r: Option<seq<string>>)
    ensures r.Some? ==> base + r.value == Target(base, path)
  {
    if Unsafe(path) || !WithinBase(Target(base, path), base) then None
    else Some(Target(base, path)[|base|..])
  }
}
