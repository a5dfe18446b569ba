/**
 One catalog folder for each way a backup fails to bring its artifacts back.
 */
module BackupLosses {
  import opened Text
  import opened PathGlob
  import opened ZipLayout
  import opened CatalogRestore
  import opened ArchiveNames
  import opened CatalogBackup
  import opened CatalogRoundTrip

  // ---- names that are not transient ----

  predicate EndsLikeCatalog(name: string) {
    0 < |name| < 18 && var last := LowerChar(Last(name)); last == 't' || last == 'a' || last == 'x'
  }

  lemma NoneTransient(patterns: seq<Pattern>, name: string)
    requires EndsLikeCatalog(name) && forall p :: p in patterns ==> IsTransient(p)
    ensures !MatchesAny(patterns, name)
  {
    forall p | p in patterns
      ensures !Matches(p, name)
    {
      NotThisOne(p, name);
    }
  }

  lemma NotThisOne(p: Pattern, name: string)
    requires EndsLikeCatalog(name) && IsTransient(p)
    ensures !Matches(p, name)
  {
    TransientEnds(p);
    assert Last(Lower(name)) == LowerChar(Last(name));
    if MatchesCase(p, name) {
      EndsAlike(name, Ending(p));
    }
    if MatchesCase(p, Lower(name)) {
      EndsAlike(Lower(name), Ending(p));
    }
  }

  lemma NotSwept(path: seq<string>)
    requires forall k :: 0 <= k < |path| ==> EndsLikeCatalog(path[k])
    ensures !Swept(TransientOf(CLEANUP), path)
  {
    forall k | 0 <= k < |path|
      ensures !MatchesAny(TransientOf(CLEANUP), path[k])
    {
      NoneTransient(TransientOf(CLEANUP), path[k]);
    }
  }

  lemma ArtifactEnds(p: Pattern)
    requires p in ARTIFACTS
    ensures p.Star? && p.suffix != "" && Last(p.suffix) != 'T'
  {
  }

  lemma NotExact(name: string)
    requires name != "" && Last(name) == 'T'
    ensures !MatchesAnyCase(ARTIFACTS, name)
  {
    forall p | p in ARTIFACTS
      ensures !MatchesCase(p, name)
    {
      ArtifactEnds(p);
      if MatchesCase(p, name) {
        EndsAlike(name, p.suffix);
      }
    }
  }

  /** An artifact with a name in lower case is packed and to be brought back. */
  lemma Packs(catalog: Tree, q: seq<string>, suffix: string)
    requires q in catalog && q != [] && Star(suffix) in ARTIFACTS && HasSuffix(q[0], suffix)
    requires forall k :: 0 <= k < |q| ==> EndsLikeCatalog(q[k])
    ensures q in Wanted(catalog) && q in BackupOf(catalog)
  {
    assert MatchesCase(Star(suffix), q[0]);
    ExactIsArtifact(q);
    NotSwept(q);
    WantedAt(catalog, q);
  }

  // ---- what is lost ----

  /** No restore of any backup of this folder brings its artifacts back. */
  ghost predicate Lost(base: seq<string>, disk: Tree) {
    forall order, archive, later, root ::
      ArchiveOf(archive, Discovered(base, disk), order) && Strips(archive, true, root) ==>
        var restored := Restored(base, root, archive, later);
        restored.Some? && ArtifactPart(restored.value) != Wanted(Sub(disk, base))
  }

  lemma LostIf(base: seq<string>, disk: Tree)
    requires base != [] && !Bracketed(base) && (forall q :: q in disk ==> OnDisk(q))
    requires SomePacked(BackupOf(Sub(disk, base)), Sub(disk, base))
    requires var catalog := Sub(disk, base);
             Overlooks(catalog) || Misnames(catalog) || exists r :: OneFolder(BackupOf(catalog), r)
    ensures Lost(base, disk)
  {
    DiscoversFolder(base, disk);
    BracketIsThere(base);
    var catalog := Sub(disk, base);
    assert Wanted(catalog) != map[];
    forall order, archive, later, root | ArchiveOf(archive, Discovered(base, disk), order)
      && Strips(archive, true, root)
      ensures var restored := Restored(base, root, archive, later);
              restored.Some? && ArtifactPart(restored.value) != Wanted(catalog)
    {
      BackupThenRestore(base, disk, order, archive, later, root);
    }
  }

  lemma UpperIsOverlooked(catalog: Tree, upper: string)
    requires [upper] in catalog && EndsLikeCatalog(upper) && Last(upper) == 'T' && HasSuffix(Lower(upper), ".lrcat")
    ensures Overlooks(catalog)
  {
    NotSwept([upper]);
    NotExact(upper);
    assert Matches(Star(".lrcat"), upper) && Star(".lrcat") in ARTIFACTS;
    assert IsArtifact([upper]);
  }

  /** A catalog whose extension is in upper case is removed by a restore and was not backed up. */
  lemma UpperCaseIsLost(base: seq<string>, disk: Tree, upper: string, lower: string)
    requires base != [] && !Bracketed(base) && (forall q :: q in disk ==> OnDisk(q))
    requires base + [upper] in disk && EndsLikeCatalog(upper) && Last(upper) == 'T' && HasSuffix(Lower(upper), ".lrcat")
    requires base + [lower] in disk && EndsLikeCatalog(lower) && HasSuffix(lower, ".lrcat")
    ensures Lost(base, disk)
  {
    var catalog := Sub(disk, base);
    SubAt(disk, base, [upper]);
    SubAt(disk, base, [lower]);
    Packs(catalog, [lower], ".lrcat");
    UpperIsOverlooked(catalog, upper);
    LostIf(base, disk);
  }

  /** A catalog whose name begins with a space comes back without it. */
  lemma SpaceIsLost(base: seq<string>, disk: Tree, name: string)
    requires base != [] && !Bracketed(base) && (forall q :: q in disk ==> OnDisk(q))
    requires base + [name] in disk && EndsLikeCatalog(name) && IsSpace(First(name)) && HasSuffix(name, ".lrcat")
    ensures Lost(base, disk)
  {
    var catalog := Sub(disk, base);
    SubAt(disk, base, [name]);
    Packs(catalog, [name], ".lrcat");
    assert Tidy([name])[0] != name;
    LostIf(base, disk);
  }

  lemma OnlyFile(base: seq<string>, q: seq<string>, content: Content)
    requires q != []
    ensures Sub(map[base + q := content], base) == map[q := content]
  {
    var disk: Tree := map[base + q := content];
    forall r
      ensures r in Sub(disk, base) <==> r == q
    {
      SubAt(disk, base, r);
      assert (base + r)[|base|..] == r && (base + q)[|base|..] == q;
    }
    SubAt(disk, base, q);
  }

  lemma FolderPacked(catalog: Tree, folder: string, file: string)
    requires catalog.Keys == {[folder, file]}
    requires EndsLikeCatalog(folder) && EndsLikeCatalog(file) && HasSuffix(folder, ".lrdata")
    ensures SomePacked(BackupOf(catalog), catalog) && exists r :: OneFolder(BackupOf(catalog), r)
  {
    var q := [folder, file];
    assert q in catalog;
    Packs(catalog, q, ".lrdata");
    OneIsOneFolder(catalog, q);
  }

  /** A folder of previews alone is taken for a wrapper. */
  lemma FolderIsLost(base: seq<string>, disk: Tree, folder: string, file: string)
    requires base != [] && !Bracketed(base) && (forall q :: q in disk ==> OnDisk(q))
    requires Sub(disk, base).Keys == {[folder, file]}
    requires EndsLikeCatalog(folder) && EndsLikeCatalog(file) && HasSuffix(folder, ".lrdata")
    ensures Lost(base, disk)
  {
    FolderPacked(Sub(disk, base), folder, file);
    LostIf(base, disk);
  }

  lemma OneIsOneFolder(catalog: Tree, q: seq<string>)
    requires (forall r :: r in catalog ==> r == q) && q in BackupOf(catalog) && |q| > 1
    ensures exists r :: OneFolder(BackupOf(catalog), r)
  {
    assert OneFolder(BackupOf(catalog), Tidy(q)[0]);
  }

  lemma NothingBeside(base: seq<string>, disk: Tree)
    requires Bracketed(base) && forall q :: q in disk ==> base <= q
    ensures Discovered(base, disk) == map[]
  {
    forall r
      ensures r !in Discovered(base, disk)
    {
      if r in Discovered(base, disk) {
        DiscoversElsewhere(base, disk, r);
      }
    }
  }

  lemma FirstBracketAt(parent: seq<string>, folder: string)
    requires !Bracketed(parent) && '[' in folder
    ensures FirstBracket(parent + [folder]) == |parent|
  {
    assert (parent + [folder])[|parent|] == folder;
    assert forall k :: 0 <= k < |parent| ==> (parent + [folder])[k] == parent[k];
  }

  lemma SiblingMeant(parent: seq<string>, folder: string, sibling: string)
    requires !Bracketed(parent) && MatchesName(folder, sibling)
    ensures LeadsTo(parent + [folder], parent + [sibling])
  {
    LeadsToItselfIff(parent, parent);
    var base, dir := parent + [folder], parent + [sibling];
    forall k | 0 <= k < |base|
      ensures MatchesName(base[k], dir[k])
    {
      assert k < |parent| ==> base[k] == parent[k] && dir[k] == parent[k];
    }
  }

  /** What a folder with a class in its name backs up instead: the catalogs of the folders beside it whose
      names have one of the class's characters in its place. */
  lemma SiblingIsPacked(parent: seq<string>, head: string, inside: string, tail: string, c: char, name: string,
                        disk: Tree)
    requires !Bracketed(parent) && '[' !in head && '[' !in tail && PathGlob.Plain(inside) && c in inside
    requires HasSuffix(name, ".lrcat") && parent + [head + [c] + tail, name] in disk
    ensures var base, r := parent + [OneClass(head, false, inside, tail)], ["..", head + [c] + tail, name];
            && r in Discovered(base, disk)
            && Discovered(base, disk)[r] == disk[parent + [head + [c] + tail, name]]
  {
    var folder, sibling := OneClass(head, false, inside, tail), head + [c] + tail;
    var base, q := parent + [folder], parent + [sibling, name];
    ClassMatchIff(head, false, inside, tail, sibling);
    assert folder[|head|] == '[';
    SiblingMeant(parent, folder, sibling);
    FirstBracketAt(parent, folder);
    assert q[..|base|] == parent + [sibling] && q[|base|] == name && MatchesCase(Star(".lrcat"), name);
    FoundReturns(base, q);
    assert Ups(1) + q[|parent|..] == ["..", sibling, name];
    DiscoveredAt(base, disk, ["..", sibling, name]);
  }

  /** A folder with brackets in its path, on a disk with nothing beside it that they could mean: there is
      no error and no backup, and the restore that follows removes the catalog. */
  lemma BracketIsLost(base: seq<string>, disk: Tree, name: string)
    requires Bracketed(base) && WellFormed(base) && forall q :: q in disk ==> base <= q
    requires base + [name] in disk && EndsLikeCatalog(name) && HasSuffix(name, ".lrcat")
    ensures Discovered(base, disk) == map[]
    ensures [name] in Wanted(Sub(disk, base)) && [name] !in Cleaned(CLEANUP, Sub(disk, base))
  {
    var catalog := Sub(disk, base);
    SubAt(disk, base, [name]);
    Packs(catalog, [name], ".lrcat");
    WantedAt(catalog, [name]);
    ArtifactsAreSwept([name]);
    NothingBeside(base, disk);
  }

  lemma ArtifactLands(f: seq<string>)
    requires OnDisk(f) && MatchesAnyCase(ARTIFACTS, f[0])
    ensures MatchesAny(CLEANUP, f[0])
    ensures var p := Landing(None, f); p != [] && MatchesAny(CLEANUP, p[0])
  {
    TidyArtifact(f);
    ExactIsSwept(f[0]);
    ExactIsSwept(Tidy(f)[0]);
  }

  /** Whatever a backup of the folder brings back without a wrapper lies below an artifact. */
  lemma PackedLands(base: seq<string>, disk: Tree, f: seq<string>)
    requires !Bracketed(base) && (forall q :: q in disk ==> OnDisk(q)) && f in Discovered(base, disk)
    ensures f != [] && MatchesAny(CLEANUP, f[0])
    ensures var p := Landing(None, f); p != [] && MatchesAny(CLEANUP, p[0])
  {
    SubOnDisk(disk, base);
    DiscoversFolder(base, disk);
    WantedAt(Sub(disk, base), f);
    ArtifactLands(f);
  }

  lemma ExactIsSwept(name: string)
    requires MatchesAnyCase(ARTIFACTS, name)
    ensures MatchesAny(CLEANUP, name)
  {
    var p :| p in ARTIFACTS && MatchesCase(p, name);
    CleanupIsCovered(p);
    assert Matches(p, name);
  }

  /** An artifact further down, in a folder of another name: a restore removes it, and no backup of the folder
      holds it. It is there afterwards only if a file out of a wrapper lands on its place. */
  lemma NestedIsLost(base: seq<string>, disk: Tree, q: seq<string>, order: seq<seq<string>>, archive: seq<Entry>,
                     root: Option<string>)
    requires base != [] && !Bracketed(base) && (forall f :: f in disk ==> OnDisk(f))
    requires q in Sub(disk, base) && Swept(CLEANUP, q) && !MatchesAny(CLEANUP, q[0])
    requires ArchiveOf(archive, Discovered(base, disk), order) && Strips(archive, true, root)
    ensures var packed, restored := Discovered(base, disk), Restored(base, root, archive, Sub(disk, base));
            && q !in packed && restored.Some?
            && (q in restored.value ==> root.Some? && exists f :: Comes(root, packed, f, q))
  {
    var packed := Discovered(base, disk);
    forall f | f in packed
      ensures f != q && !Comes(None, packed, f, q)
    {
      PackedLands(base, disk, f);
    }
    NestedIsLeft(base, disk, q, order, archive, root);
  }

  lemma NestedIsLeft(base: seq<string>, disk: Tree, q: seq<string>, order: seq<seq<string>>, archive: seq<Entry>,
                     root: Option<string>)
    requires base != [] && !Bracketed(base) && (forall f :: f in disk ==> OnDisk(f)) && Swept(CLEANUP, q)
    requires ArchiveOf(archive, Discovered(base, disk), order) && Strips(archive, true, root)
    ensures var packed, restored := Discovered(base, disk), Restored(base, root, archive, Sub(disk, base));
            restored.Some? && (q in restored.value ==> exists f :: Comes(root, packed, f, q))
  {
    BracketIsThere(base);
    var packed, catalog := Discovered(base, disk), Sub(disk, base);
    BackupThenRestore(base, disk, order, archive, catalog, root);
    assert LeftAt(root, packed, catalog, Restored(base, root, archive, catalog).value, q);
  }

  // ---- spelled out ----

  lemma SomeNames()
    ensures EndsLikeCatalog("A.LRCAT") && Last("A.LRCAT") == 'T' && HasSuffix(Lower("A.LRCAT"), ".lrcat")
    ensures EndsLikeCatalog("b.lrcat") && HasSuffix("b.lrcat", ".lrcat")
    ensures EndsLikeCatalog(" a.lrcat") && IsSpace(First(" a.lrcat")) && HasSuffix(" a.lrcat", ".lrcat")
    ensures EndsLikeCatalog("a.lrdata") && HasSuffix("a.lrdata", ".lrdata") && EndsLikeCatalog("index")
  {
    assert Lower("A.LRCAT")[1..] == ".lrcat" && "b.lrcat"[1..] == ".lrcat" && " a.lrcat"[2..] == ".lrcat";
    assert "a.lrdata"[1..] == ".lrdata";
  }

  lemma PlainFile(folder: string, file: string)
    requires Name(folder) && Name(file) && 'a' <= LowerChar(Last(file)) <= 'z'
    ensures OnDisk([folder, file])
  {
    EndsInLetter(file);
  }

  lemma UpperCaseIn(folder: string, upper: string, lower: string, a: Content, b: Content)
    requires Name(folder) && '[' !in folder && Name(upper) && Name(lower)
    requires EndsLikeCatalog(upper) && Last(upper) == 'T' && HasSuffix(Lower(upper), ".lrcat")
    requires EndsLikeCatalog(lower) && HasSuffix(lower, ".lrcat")
    ensures Lost([folder], map[[folder, upper] := a, [folder, lower] := b])
  {
    PlainFile(folder, upper);
    PlainFile(folder, lower);
    var disk: Tree := map[[folder, upper] := a, [folder, lower] := b];
    assert [folder] + [upper] == [folder, upper] && [folder] + [lower] == [folder, lower];
    UpperCaseIsLost([folder], disk, upper, lower);
  }

  lemma SpaceIn(folder: string, name: string, a: Content)
    requires Name(folder) && '[' !in folder && Name(name)
    requires EndsLikeCatalog(name) && IsSpace(First(name)) && HasSuffix(name, ".lrcat")
    ensures Lost([folder], map[[folder, name] := a])
  {
    PlainFile(folder, name);
    assert [folder] + [name] == [folder, name];
    SpaceIsLost([folder], map[[folder, name] := a], name);
  }

  lemma FolderIn(folder: string, previews: string, file: string, a: Content)
    requires Name(folder) && '[' !in folder && Name(previews) && Name(file)
    requires EndsLikeCatalog(previews) && EndsLikeCatalog(file) && HasSuffix(previews, ".lrdata")
    ensures Lost([folder], map[[folder, previews, file] := a])
  {
    EndsInLetter(file);
    var disk: Tree := map[[folder, previews, file] := a];
    assert [folder] + [previews, file] == [folder, previews, file];
    OnlyFile([folder], [previews, file], a);
    FolderIsLost([folder], disk, previews, file);
  }

  lemma UpperCaseExample()
    ensures Lost(["Photos"], map[["Photos", "A.LRCAT"] := "one", ["Photos", "b.lrcat"] := "two"])
  {
    SomeNames();
    UpperCaseIn("Photos", "A.LRCAT", "b.lrcat", "one", "two");
  }

  lemma SpaceExample()
    ensures Lost(["Photos"], map[["Photos", " a.lrcat"] := "one"])
  {
    SomeNames();
    SpaceIn("Photos", " a.lrcat", "one");
  }

  lemma FolderExample()
    ensures Lost(["Photos"], map[["Photos", "a.lrdata", "index"] := "one"])
  {
    SomeNames();
    FolderIn("Photos", "a.lrdata", "index", "one");
  }

  lemma BracketExample()
    ensures var base, disk: Tree := ["Photos [2024]"], map[["Photos [2024]", "b.lrcat"] := "one"];
            && WellFormed(base) && Discovered(base, disk) == map[]
            && ["b.lrcat"] in Wanted(Sub(disk, base)) && ["b.lrcat"] !in Cleaned(CLEANUP, Sub(disk, base))
  {
    SomeNames();
    var base, disk: Tree := ["Photos [2024]"], map[["Photos [2024]", "b.lrcat"] := "one"];
    assert OneClass("Photos ", false, "2024", "") == "Photos [2024]" && "2024"[0] in "2024";
    ListedRanges("2024", "", []);
    assert [] + Singles("2024") == Singles("2024");
    ParseClass("Photos ", false, "2024", "", Singles("2024"));
    assert base + ["b.lrcat"] == ["Photos [2024]", "b.lrcat"] && base[0] == "Photos [2024]";
    BracketIsLost(base, disk, "b.lrcat");
  }
}
