/**
 The pre-sync backup of a catalog folder: which files discovery finds, what becomes of their names, and
 what restoring the backup over the folder brings back.
 */
module CatalogBackup {
  import opened Sets
  import opened Text
  import opened PathGlob
  import opened ZipLayout
  import opened CatalogRestore
  import opened ArchiveNames

  // ---- discovery ----

  /** The files of a disk below a folder, by their relative paths. */
  function Sub(disk: Tree, base: seq<string>): Tree {
    map r | r in (set q | q in disk && |base| < |q| && base <= q :: q[|base|..]) && base + r in disk :: disk[base + r]
  }

  lemma SubAt(disk: Tree, base: seq<string>, r: seq<string>)
    ensures r in Sub(disk, base) <==> r != [] && base + r in disk
    ensures r in Sub(disk, base) ==> Sub(disk, base)[r] == disk[base + r]
  {
    assert (base + r)[|base|..] == r;
    forall q | q in disk && |base| < |q| && base <= q
      ensures base + q[|base|..] == q && q[|base|..] != []
    {
    }
  }

  /** The top-level artifacts of a folder, found case-exactly, with all they hold. */
  function BackupOf(catalog: Tree): Tree {
    map q | q in catalog && q != [] && MatchesAnyCase(ARTIFACTS, q[0]) :: catalog[q]
  }

  /** What the glob finds when the folder's own path is part of the pattern. */
  predicate Found(base: seq<string>, q: seq<string>) {
    |base| < |q| && LeadsTo(base, q[..|base|]) && MatchesAnyCase(ARTIFACTS, q[|base|])
  }

  /** How many components two paths share at the front. */
  function Common(a: seq<string>, b: seq<string>): (n: nat)
    ensures n <= |a| && n <= |b| && a[..n] == b[..n]
    ensures n < |a| && n < |b| ==> a[n] != b[n]
  {
    if a == [] || b == [] || a[0] != b[0] then 0 else 1 + Common(a[1..], b[1..])
  }

  function Ups(n: nat): (r: seq<string>)
    ensures |r| == n && forall k :: 0 <= k < n ==> r[k] == ".."
  {
    seq(n, k => "..")
  }

  /** The name an archive gives a file: its path relative to the folder. */
  function Relative(base: seq<string>, q: seq<string>): seq<string> {
    var n := Common(base, q);
    Ups(|base| - n) + q[n..]
  }

  function FirstBracket(path: seq<string>): (n: nat)
    ensures n <= |path| && forall k :: 0 <= k < n ==> '[' !in path[k]
    ensures n < |path| ==> '[' in path[n]
  {
    if path == [] || '[' in path[0] then 0 else 1 + FirstBracket(path[1..])
  }

  /** The path that leaves `base` after `n` components and is `r` relative to it. */
  function Rejoined(base: seq<string>, n: nat, r: seq<string>): seq<string>
    requires n <= |base|
  {
    if |r| < |base| - n then [] else base[..n] + r[|base| - n..]
  }

  /** The path of a found file, from its relative one. */
  function Absolute(base: seq<string>, r: seq<string>): seq<string> {
    Rejoined(base, FirstBracket(base), r)
  }

  lemma {:induction false} CommonIs(a: seq<string>, b: seq<string>, n: nat)
    requires n <= |a| && n <= |b| && a[..n] == b[..n] && (n == |a| || n == |b| || a[n] != b[n])
    ensures Common(a, b) == n
  {
    if n > 0 {
      assert a[..n][0] == b[..n][0];
      assert a[1..][..n - 1] == a[..n][1..] && b[1..][..n - 1] == b[..n][1..];
      CommonIs(a[1..], b[1..], n - 1);
    }
  }

  /** Found files leave the folder's path at its first bracket. */
  lemma FoundLeaves(base: seq<string>, q: seq<string>)
    requires Found(base, q)
    ensures var n := FirstBracket(base);
            q[..n] == base[..n] && (n < |base| ==> q[n] != base[n])
  {
    var n, dir := FirstBracket(base), q[..|base|];
    forall k | 0 <= k < n
      ensures q[k] == base[k]
    {
      SelfMatchIff(base[k], dir[k]);
    }
    if n < |base| {
      SelfMatchIff(base[n], dir[n]);
    }
  }

  lemma RejoinedOf(base: seq<string>, n: nat, q: seq<string>)
    requires n <= |base| <= |q| && q[..n] == base[..n]
    ensures Rejoined(base, n, Ups(|base| - n) + q[n..]) == q
  {
    var r := Ups(|base| - n) + q[n..];
    assert r[|base| - n..] == q[n..];
    assert base[..n] + q[n..] == q;
  }

  lemma FoundReturns(base: seq<string>, q: seq<string>)
    requires Found(base, q)
    ensures var n := FirstBracket(base);
            Relative(base, q) == Ups(|base| - n) + q[n..] && Absolute(base, Relative(base, q)) == q
  {
    FoundLeaves(base, q);
    CommonIs(base, q, FirstBracket(base));
    RejoinedOf(base, FirstBracket(base), q);
  }

  /** The files that are packed, by their relative paths. */
  function Discovered(base: seq<string>, disk: Tree): Tree {
    map r | r in (set q | q in disk && Found(base, q) :: Relative(base, q)) && Absolute(base, r) in disk
      :: disk[Absolute(base, r)]
  }

  lemma DiscoveredAt(base: seq<string>, disk: Tree, r: seq<string>)
    ensures r in Discovered(base, disk) <==>
            var q := Absolute(base, r); q in disk && Found(base, q) && Relative(base, q) == r
    ensures r in Discovered(base, disk) ==> Discovered(base, disk)[r] == disk[Absolute(base, r)]
  {
    forall q | q in disk && Found(base, q)
      ensures Absolute(base, Relative(base, q)) == q
    {
      FoundReturns(base, q);
    }
  }

  /** Without brackets in the folder's path discovery finds the artifacts of the folder. */
  lemma DiscoversFolder(base: seq<string>, disk: Tree)
    requires !Bracketed(base)
    ensures Discovered(base, disk) == BackupOf(Sub(disk, base))
  {
    forall r
      ensures r in Discovered(base, disk) <==> r in BackupOf(Sub(disk, base))
      ensures r in Discovered(base, disk) ==> Discovered(base, disk)[r] == BackupOf(Sub(disk, base))[r]
    {
      FolderFileFound(base, disk, r);
    }
    SameTree(Discovered(base, disk), BackupOf(Sub(disk, base)));
  }

  lemma FolderPath(base: seq<string>, r: seq<string>)
    ensures Rejoined(base, |base|, r) == base + r && (base + r)[..|base|] == base && (base + r)[|base|..] == r
  {
    assert base[..|base|] == base && r[0..] == r;
  }

  lemma FolderFile(base: seq<string>, r: seq<string>)
    requires !Bracketed(base)
    ensures FirstBracket(base) == |base| && Absolute(base, r) == base + r
    ensures Found(base, base + r) <==> r != [] && MatchesAnyCase(ARTIFACTS, r[0])
  {
    BracketIsThere(base);
    FolderPath(base, r);
    LeadsToItselfIff(base, base);
    assert r != [] ==> (base + r)[|base|] == r[0];
  }

  lemma FolderFileFound(base: seq<string>, disk: Tree, r: seq<string>)
    requires !Bracketed(base)
    ensures r in Discovered(base, disk) <==> r in BackupOf(Sub(disk, base))
    ensures r in Discovered(base, disk) ==> Discovered(base, disk)[r] == BackupOf(Sub(disk, base))[r]
  {
    DiscoveredAt(base, disk, r);
    SubAt(disk, base, r);
    FolderFile(base, r);
    if Found(base, base + r) {
      FoundReturns(base, base + r);
      assert Ups(0) + (base + r)[|base|..] == r;
    }
  }

  /** With a bracket it finds nothing of the folder: whatever is packed lies beside it. */
  lemma DiscoversElsewhere(base: seq<string>, disk: Tree, r: seq<string>)
    requires Bracketed(base) && r in Discovered(base, disk)
    ensures var q, n := Absolute(base, r), FirstBracket(base);
            && n < |base| < |q| && q in disk && r == Ups(|base| - n) + q[n..] && q[..|base|] != base
  {
    DiscoveredAt(base, disk, r);
    FoundReturns(base, Absolute(base, r));
    LeadsToItselfIff(base, base);
    BracketIsThere(base);
  }

  lemma BracketIsThere(path: seq<string>)
    ensures Bracketed(path) <==> FirstBracket(path) < |path|
  {
  }

  /** What the restore sweeps is swept again after extraction or packed, pattern by pattern. */
  lemma CleanupIsCovered(p: Pattern)
    ensures p in CLEANUP <==> IsTransient(p) || p in ARTIFACTS
  {
  }

  /** The first cleanup of a restore takes what a backup of the folder holds, and of the files that the second
      cleanup would spare the backup holds all those below a top-level name that the first one matches
      case-exactly. */
  lemma PackedIffTaken(base: seq<string>, disk: Tree, q: seq<string>)
    requires !Bracketed(base) && q in Sub(disk, base)
    ensures q in Discovered(base, disk) ==> Swept(CLEANUP, q) && Discovered(base, disk)[q] == disk[base + q]
    ensures !Swept(TransientOf(CLEANUP), q) ==>
              (q in Discovered(base, disk) <==> MatchesAnyCase(CLEANUP, q[0]))
  {
    SubAt(disk, base, q);
    DiscoversFolder(base, disk);
    if q in Discovered(base, disk) {
      var p :| p in ARTIFACTS && MatchesCase(p, q[0]);
      CleanupIsCovered(p);
      assert Matches(p, q[0]) && MatchesAny(CLEANUP, q[0]);
    }
    if MatchesAnyCase(CLEANUP, q[0]) {
      var p :| p in CLEANUP && MatchesCase(p, q[0]);
      CleanupIsCovered(p);
      assert Matches(p, q[0]);
      assert IsTransient(p) ==> MatchesAny(TransientOf(CLEANUP), q[0]);
    }
  }

  /** A zip of what discovery found, if it found anything; a malformed class is an error. */
  datatype Backup = BadPattern | NothingFound | Zip(archive: seq<Entry>)

  /** Packs files one by one, in any order. */
  method ZipSelectedEntries(files: Tree) returns (archive: seq<Entry>, order: seq<seq<string>>)
    requires [] !in files
    ensures ArchiveOf(archive, files, order)
  {
    var todo := files.Keys;
    archive, order := [], [];
    while todo != {}
      invariant todo <= files.Keys && |order| == |archive|
      invariant forall q :: q in order <==> q in files && q !in todo
      invariant forall k :: 0 <= k < |order| ==> PackedAt(archive[k], files, order[k])
    {
      var q :| q in todo;
      archive := archive + [Packed(q, files[q])];
      order := order + [q];
      todo := todo - {q};
    }
  }

  lemma NoEmptyPath(base: seq<string>, disk: Tree)
    ensures [] !in Discovered(base, disk)
  {
    DiscoveredAt(base, disk, []);
    if [] in Discovered(base, disk) {
      FoundReturns(base, Absolute(base, []));
    }
  }

  method CreatePreSyncBackup(base: seq<string>, disk: Tree) returns (backup: Backup, order: seq<seq<string>>)
    ensures backup.BadPattern? <==> !WellFormed(base)
    ensures backup.NothingFound? ==> Discovered(base, disk) == map[]
    ensures backup.Zip? ==> Discovered(base, disk) != map[] && ArchiveOf(backup.archive, Discovered(base, disk), order)
  {
    if !WellFormed(base) {
      return BadPattern, [];
    }
    var files := Discovered(base, disk);
    if files == map[] {
      return NothingFound, [];
    }
    NoEmptyPath(base, disk);
    var archive;
    archive, order := ZipSelectedEntries(files);
    backup := Zip(archive);
  }
}
