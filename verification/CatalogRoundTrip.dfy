/**
 Backing up a catalog folder and restoring the backup: when the artifacts come back, exactly.
 */
module CatalogRoundTrip {
  import opened Sets
  import opened Text
  import opened PathGlob
  import opened ZipLayout
  import opened CatalogRestore
  import opened ArchiveNames
  import opened CatalogBackup

  /** The artifacts of a folder by the cleanup's own, case-blind matching. */
  function ArtifactPart(tree: Tree): Tree {
    map q | q in tree && IsArtifact(q) :: tree[q]
  }

  predicate IsArtifact(q: seq<string>) {
    q != [] && MatchesAny(ARTIFACTS, q[0])
  }

  /** Artifacts that discovery overlooks because of the case of their name, transient ones aside. */
  predicate Overlooks(catalog: Tree) {
    exists q :: q in catalog && IsArtifact(q) && !Swept(TransientOf(CLEANUP), q) && !MatchesAnyCase(ARTIFACTS, q[0])
  }

  lemma ArtifactsAreSwept(q: seq<string>)
    ensures IsArtifact(q) ==> Swept(CLEANUP, q)
    ensures Swept(TransientOf(CLEANUP), q) ==> Swept(CLEANUP, q)
  {
    if IsArtifact(q) {
      var p :| p in ARTIFACTS && Matches(p, q[0]);
      assert p in CLEANUP;
      assert MatchesAny(CLEANUP, q[0]);
    }
    if Swept(TransientOf(CLEANUP), q) {
      var k :| 0 <= k < |q| && MatchesAny(TransientOf(CLEANUP), q[k]);
      var p :| p in TransientOf(CLEANUP) && Matches(p, q[k]);
      assert MatchesAny(CLEANUP, q[k]);
    }
  }

  lemma ExactIsArtifact(q: seq<string>)
    requires q != [] && MatchesAnyCase(ARTIFACTS, q[0])
    ensures IsArtifact(q)
  {
    var p :| p in ARTIFACTS && MatchesCase(p, q[0]);
    assert Matches(p, q[0]);
  }

  /** The artifacts of a catalog that a restore is expected to bring back. */
  function Wanted(catalog: Tree): Tree {
    Cleaned(TransientOf(CLEANUP), ArtifactPart(catalog))
  }

  lemma WantedAt(catalog: Tree, q: seq<string>)
    ensures q in Wanted(catalog) <==> q in catalog && IsArtifact(q) && !Swept(TransientOf(CLEANUP), q)
    ensures q in Wanted(catalog) ==> Wanted(catalog)[q] == catalog[q]
    ensures q in BackupOf(catalog) <==> q in catalog && q != [] && MatchesAnyCase(ARTIFACTS, q[0])
  {
  }

  lemma OverlooksIff(catalog: Tree)
    ensures Overlooks(catalog) <==> exists q :: q in Wanted(catalog) && q !in BackupOf(catalog)
  {
    if Overlooks(catalog) {
      var q :| q in catalog && IsArtifact(q) && !Swept(TransientOf(CLEANUP), q) && !MatchesAnyCase(ARTIFACTS, q[0]);
      WantedAt(catalog, q);
    }
    if q :| q in Wanted(catalog) && q !in BackupOf(catalog) {
      WantedAt(catalog, q);
    }
  }

  // ---- outer spaces ----

  /** A path to a file, as Windows holds it: no name ends in a plain space or a dot, so the last one is
      a name also when other spaces behind it are dropped. */
  predicate OnDisk(path: seq<string>) {
    path != [] && Names(path) && Name(TrimRight(path[|path| - 1]))
  }

  lemma {:induction false} LowerTrim(s: string)
    ensures Lower(TrimLeft(s)) == TrimLeft(Lower(s))
  {
    if s != "" && IsSpace(s[0]) {
      assert Lower(s)[1..] == Lower(s[1..]);
      LowerTrim(s[1..]);
    }
  }

  predicate NoSpaceFirst(s: string) {
    s != "" && !IsSpace(s[0])
  }

  /** A suffix that does not begin with a space lies in what trimming leaves. */
  lemma SuffixTrim(s: string, suffix: string)
    requires NoSpaceFirst(suffix)
    ensures HasSuffix(TrimLeft(s), suffix) <==> HasSuffix(s, suffix)
  {
    TrimLeftKeepsTail(s);
    var t := TrimLeft(s);
    assert |suffix| <= |s| ==> s[|s| - |suffix|..][0] == s[|s| - |suffix|];
    if |suffix| <= |t| {
      assert t[|t| - |suffix|..] == s[|s| - |suffix|..];
    }
  }

  lemma StarTrim(suffix: string, name: string)
    requires NoSpaceFirst(suffix)
    ensures Matches(Star(suffix), TrimLeft(name)) <==> Matches(Star(suffix), name)
    ensures MatchesCase(Star(suffix), TrimLeft(name)) <==> MatchesCase(Star(suffix), name)
  {
    SuffixTrim(name, suffix);
    SuffixTrim(Lower(name), suffix);
    LowerTrim(name);
  }

  predicate IsLockText(name: string) {
    Matches(Exactly("lightroom_lock.txt"), name)
  }

  /** No artifact's name is the lock text file's, nor is it with spaces removed. */
  lemma NotTheLockText(name: string, suffix: string)
    requires Star(suffix) in ARTIFACTS && HasSuffix(name, suffix)
    ensures !IsLockText(name)
  {
    assert suffix == ".lrcat" || suffix == ".lrcat-data" || suffix == ".lrcat-journal" || suffix == ".lrcat.lock"
        || suffix == ".lrdata";
    var n := |name|;
    assert name[n - 2] == suffix[|suffix| - 2];
    assert suffix[|suffix| - 2] != 'x';
    assert "lightroom_lock.txt"[16] == 'x';
    assert Lower(name)[n - 2] == LowerChar(name[n - 2]);
  }

  /** The suffixes begin with a dot or a dash and end in a letter. */
  predicate Plain(suffix: string) {
    |suffix| > 2 && (suffix[0] == '.' || suffix[0] == '-') && 'a' <= suffix[|suffix| - 1] <= 'z'
  }

  lemma ArtifactStars(p: Pattern)
    requires p in ARTIFACTS
    ensures p.Star? && Plain(p.suffix)
  {
  }

  lemma TransientStars(p: Pattern)
    requires IsTransient(p)
    ensures p == Exactly("lightroom_lock.txt") || (p.Star? && Plain(p.suffix))
  {
  }

  lemma ArtifactSuffix(name: string) returns (suffix: string)
    requires MatchesAnyCase(ARTIFACTS, name)
    ensures Star(suffix) in ARTIFACTS && HasSuffix(name, suffix) && Plain(suffix)
  {
    var p :| p in ARTIFACTS && MatchesCase(p, name);
    ArtifactStars(p);
    suffix := p.suffix;
  }

  lemma EndsAlike(name: string, ending: string)
    requires ending != "" && HasSuffix(name, ending)
    ensures name != "" && Last(name) == Last(ending)
  {
  }

  lemma EndsInLetter(name: string)
    requires name != "" && 'a' <= LowerChar(Last(name)) <= 'z'
    ensures TrimRight(name) == name
  {
  }

  lemma TransientsTrim(patterns: seq<Pattern>, name: string)
    requires (forall p :: p in patterns ==> IsTransient(p)) && !IsLockText(name) && !IsLockText(TrimLeft(name))
    ensures MatchesAny(patterns, TrimLeft(name)) <==> MatchesAny(patterns, name)
  {
    forall p | p in patterns
      ensures Matches(p, TrimLeft(name)) <==> Matches(p, name)
    {
      TransientTrim(p, name);
    }
  }

  lemma TailName(name: string, n: nat)
    requires Name(name) && n + 2 < |name|
    ensures Name(name[n..])
  {
    assert forall c :: c in name[n..] ==> c in name;
  }

  lemma TrimmedName(name: string)
    requires Name(name) && |TrimLeft(name)| > 2
    ensures Name(TrimLeft(name))
  {
    TrimLeftKeepsTail(name);
    TailName(name, |name| - |TrimLeft(name)|);
  }

  lemma SuffixKeeps(name: string, suffix: string)
    requires HasSuffix(name, suffix) && Plain(suffix)
    ensures |name| > 2 && TrimRight(name) == name
  {
    EndsAlike(name, suffix);
    EndsInLetter(name);
  }

  lemma SuffixedTrim(name: string, suffix: string)
    requires Name(name) && HasSuffix(name, suffix) && Plain(suffix)
    ensures var t := TrimLeft(name);
            Name(t) && HasSuffix(t, suffix) && TrimRight(t) == t
  {
    SuffixTrim(name, suffix);
    SuffixKeeps(TrimLeft(name), suffix);
    TrimmedName(name);
  }

  /** An artifact's name loses nothing that patterns look at when its outer spaces go. */
  lemma ArtifactTrim(name: string)
    requires Name(name) && MatchesAnyCase(ARTIFACTS, name)
    ensures var t := TrimLeft(name);
            && Name(t) && TrimRight(t) == t && MatchesAnyCase(ARTIFACTS, t)
            && (MatchesAny(TransientOf(CLEANUP), t) <==> MatchesAny(TransientOf(CLEANUP), name))
  {
    var t := TrimLeft(name);
    var suffix := ArtifactSuffix(name);
    SuffixedTrim(name, suffix);
    assert MatchesCase(Star(suffix), t);
    NotTheLockText(name, suffix);
    NotTheLockText(t, suffix);
    TransientsTrim(TransientOf(CLEANUP), name);
  }

  lemma TransientTrim(p: Pattern, name: string)
    requires IsTransient(p) && !IsLockText(name) && !IsLockText(TrimLeft(name))
    ensures Matches(p, TrimLeft(name)) <==> Matches(p, name)
  {
    TransientStars(p);
    if p.Star? {
      StarTrim(p.suffix, name);
    } else {
      assert !Matches(p, name) && !Matches(p, TrimLeft(name));
    }
  }

  lemma SweptOfSum(patterns: seq<Pattern>, name: string, rest: seq<string>)
    ensures Swept(patterns, [name] + rest) <==> MatchesAny(patterns, name) || Swept(patterns, rest)
  {
    var whole := [name] + rest;
    forall k | 0 <= k < |rest|
      ensures whole[k + 1] == rest[k]
    {
    }
    if MatchesAny(patterns, name) {
      assert MatchesAny(patterns, whole[0]);
    }
    if Swept(patterns, rest) {
      var k :| 0 <= k < |rest| && MatchesAny(patterns, rest[k]);
      assert MatchesAny(patterns, whole[k + 1]);
    }
  }

  /** What a transient name ends in. */
  function Ending(p: Pattern): string {
    match p
    case Exactly(name) => name
    case Star(suffix) => suffix
  }

  lemma TransientEnds(p: Pattern)
    requires IsTransient(p)
    ensures Ending(p) != "" && var last := Last(Ending(p)); last == 'k' || last == 'l' || last == 'm' || last == 't'
    ensures Last(Ending(p)) == 't' ==> p.Exactly? && |p.name| == 18
  {
  }

  lemma LetterKeeps(p: Pattern, name: string)
    requires Ending(p) != "" && 'a' <= Last(Ending(p)) <= 'z' && MatchesCase(p, name)
    ensures name != "" && 'a' <= Last(name) <= 'z'
  {
  }

  lemma StemMatches(stem: string, ending: string)
    ensures MatchesCase(Star(ending), stem + ending)
  {
  }

  /** A catalog, its data and its previews, whatever their stem, are packed, swept and not swept again. */
  lemma CatalogNames(stem: string, ending: string)
    requires ending in [".lrcat", ".lrcat-data", ".lrdata"]
    ensures var name := stem + ending;
            MatchesAnyCase(ARTIFACTS, name) && MatchesAny(CLEANUP, name) && !MatchesAny(TransientOf(CLEANUP), name)
  {
    var name := stem + ending;
    StemMatches(stem, ending);
    assert Matches(Star(ending), name) && Star(ending) in CLEANUP && Star(ending) in ARTIFACTS;
    NotTheLockText(name, ending);
    assert name[|name| - 1] == ending[|ending| - 1];
    forall p | IsTransient(p)
      ensures !Matches(p, name)
    {
      OtherEnding(p, name);
    }
  }

  lemma OtherEnding(p: Pattern, name: string)
    requires IsTransient(p) && name != "" && !IsLockText(name) && (Last(name) == 't' || Last(name) == 'a')
    ensures !Matches(p, name)
  {
    TransientEnds(p);
    assert Last(Lower(name)) == LowerChar(Last(name));
    if p.Star? && MatchesCase(p, name) {
      EndsAlike(name, Ending(p));
    }
    if p.Star? && MatchesCase(p, Lower(name)) {
      EndsAlike(Lower(name), Ending(p));
    }
  }

  /** The files of a running Lightroom and of its database, whatever their stem, are swept after extraction too. */
  lemma TransientNames(stem: string, name: string)
    requires name == "lightroom_lock.txt"
          || exists ending :: ending in [".lrcat-journal", ".lrcat.lock", "-lock", "-shm", "-wal"]
                              && name == stem + ending
    ensures MatchesAny(CLEANUP, name) && MatchesAny(TransientOf(CLEANUP), name)
  {
    var p := Exactly(name);
    if name != "lightroom_lock.txt" {
      var ending :| ending in [".lrcat-journal", ".lrcat.lock", "-lock", "-shm", "-wal"] && name == stem + ending;
      StemMatches(stem, ending);
      p := Star(ending);
    }
    assert Matches(p, name) && p in CLEANUP && IsTransient(p);
  }

  /** A transient name ends in a letter, so in no space. */
  lemma TransientKeeps(p: Pattern, name: string)
    requires IsTransient(p) && Matches(p, name)
    ensures TrimRight(name) == name
  {
    TransientEnds(p);
    MatchKeeps(p, name);
  }

  lemma MatchKeeps(p: Pattern, name: string)
    requires Ending(p) != "" && 'a' <= Last(Ending(p)) <= 'z' && Matches(p, name)
    ensures TrimRight(name) == name
  {
    if MatchesCase(p, name) {
      LetterKeeps(p, name);
    } else {
      LetterKeeps(p, Lower(name));
      assert Last(Lower(name)) == LowerChar(Last(name));
    }
    EndsInLetter(name);
  }

  lemma TransientsKeep(patterns: seq<Pattern>, name: string)
    requires (forall p :: p in patterns ==> IsTransient(p)) && MatchesAny(patterns, name)
    ensures TrimRight(name) == name
  {
    var p :| p in patterns && Matches(p, name);
    TransientKeeps(p, name);
  }

  lemma TidyKeeps(q: seq<string>, k: nat)
    requires 0 < k < |q| && TrimRight(q[k]) == q[k]
    ensures |Tidy(q)| == |q| && Tidy(q)[k] == q[k]
  {
  }

  lemma SweptTidy(patterns: seq<Pattern>, q: seq<string>)
    requires forall p :: p in patterns ==> IsTransient(p)
    requires q != [] && (MatchesAny(patterns, q[0]) ==> MatchesAny(patterns, Tidy(q)[0]))
    ensures Swept(patterns, q) ==> Swept(patterns, Tidy(q))
  {
    if Swept(patterns, q) {
      var k :| 0 <= k < |q| && MatchesAny(patterns, q[k]);
      if k > 0 {
        TransientsKeep(patterns, q[k]);
        TidyKeeps(q, k);
      }
      assert MatchesAny(patterns, Tidy(q)[k]);
    }
  }

  lemma TidyNames(q: seq<string>)
    requires OnDisk(q) && Name(TrimLeft(q[0])) && (|q| == 1 ==> TrimRight(TrimLeft(q[0])) == TrimLeft(q[0]))
    ensures |Tidy(q)| == |q| && Names(Tidy(q)) && Stored(q) && Tidy(q)[0] == TrimLeft(q[0])
  {
    var t, n := Tidy(q), |q| - 1;
    forall k | 0 <= k < |t|
      ensures Name(t[k])
    {
      assert 0 < k < n ==> t[k] == q[k];
    }
    assert Parts(q) && Parts(t);
  }

  lemma TidyArtifact(q: seq<string>)
    requires OnDisk(q) && MatchesAnyCase(ARTIFACTS, q[0])
    ensures var t := Tidy(q);
            && |t| == |q| && Stored(q) && Names(t) && MatchesAnyCase(ARTIFACTS, t[0])
            && (MatchesAny(TransientOf(CLEANUP), t[0]) <==> MatchesAny(TransientOf(CLEANUP), q[0]))
    ensures Swept(TransientOf(CLEANUP), q) ==> Swept(TransientOf(CLEANUP), Tidy(q))
  {
    assert Name(q[0]);
    ArtifactTrim(q[0]);
    TidyNames(q);
    SweptTidy(TransientOf(CLEANUP), q);
  }

  // ---- what a restore leaves ----

  predicate Comes(root: Option<string>, backup: Tree, q: seq<string>, p: seq<string>) {
    q in backup && Landing(root, q) == p
  }

  /** What a restore of these files leaves at one path: a file that landed there, unless it is transient,
      or else what was there before, unless a pattern matches. */
  ghost predicate LeftAt(root: Option<string>, backup: Tree, later: Tree, after: Tree, p: seq<string>) {
    if exists q :: Comes(root, backup, q, p)
    then
      && (p in after <==> !Swept(TransientOf(CLEANUP), p))
      && (p in after ==> exists q :: Comes(root, backup, q, p) && after[p] == backup[q])
    else
      && (p in after <==> p in later && !Swept(CLEANUP, p))
      && (p in after ==> after[p] == later[p])
  }

  lemma RestoredAt(root: Option<string>, backup: Tree, order: seq<seq<string>>, later: Tree, p: seq<string>)
    requires (forall q :: q in order <==> q in backup) && [] !in backup
    ensures var after := Cleaned(TransientOf(CLEANUP), Cleaned(CLEANUP, later) + Landed(root, backup, order));
            LeftAt(root, backup, later, after, p)
  {
    ArtifactsAreSwept(p);
    LandedAt(root, backup, order, p);
    var landed := Landed(root, backup, order);
    if p in landed {
      var q :| q in backup && Landing(root, q) == p && backup[q] == landed[p];
      assert Comes(root, backup, q, p);
    } else {
      assert forall q :: !Comes(root, backup, q, p);
    }
  }

  ghost predicate AllLeft(root: Option<string>, backup: Tree, later: Tree, after: Tree) {
    forall p :: LeftAt(root, backup, later, after, p)
  }

  lemma RestoredLeaves(base: seq<string>, packed: Tree, order: seq<seq<string>>, archive: seq<Entry>,
                       later: Tree, root: Option<string>)
    requires base != [] && ArchiveOf(archive, packed, order) && Strips(archive, true, root)
    requires forall q :: q in packed ==> Stored(q) && Names(Landing(root, q))
    ensures var restored := Restored(base, root, archive, later);
            restored.Some? && AllLeft(root, packed, later, restored.value)
  {
    FlattenedTo(base, root, packed, order, archive, Cleaned(CLEANUP, later));
    NonemptyPath(archive, packed, order);
    var after := Cleaned(TransientOf(CLEANUP), Cleaned(CLEANUP, later) + Landed(root, packed, order));
    forall p
      ensures LeftAt(root, packed, later, after, p)
    {
      RestoredAt(root, packed, order, later, p);
    }
  }

  /** A wanted artifact that comes out under another name, for its outer spaces. */
  predicate Misnames(catalog: Tree) {
    exists q :: q in Wanted(catalog) && q in BackupOf(catalog) && Tidy(q) != q
  }

  ghost predicate BringsBack(catalog: Tree) {
    forall q :: q in Wanted(catalog) ==> q in BackupOf(catalog) && Tidy(q) == q
  }

  lemma BringsBackIff(catalog: Tree)
    ensures BringsBack(catalog) <==> !Overlooks(catalog) && !Misnames(catalog)
  {
    OverlooksIff(catalog);
  }

  /** What a backup without a common folder brings to one artifact path. */
  lemma ArtifactComes(catalog: Tree, later: Tree, after: Tree, p: seq<string>)
    requires (forall q :: q in catalog ==> OnDisk(q)) && LeftAt(None, BackupOf(catalog), later, after, p)
    requires p in ArtifactPart(after)
    ensures exists q :: q in BackupOf(catalog) && q in Wanted(catalog) && Tidy(q) == p && after[p] == catalog[q]
  {
    ArtifactsAreSwept(p);
    var q :| Comes(None, BackupOf(catalog), q, p) && after[p] == BackupOf(catalog)[q];
    TidyArtifact(q);
    ExactIsArtifact(q);
    WantedAt(catalog, q);
  }

  lemma WantedComes(catalog: Tree, later: Tree, after: Tree, p: seq<string>)
    requires LeftAt(None, BackupOf(catalog), later, after, p)
    requires p in BackupOf(catalog) && p in Wanted(catalog) && Tidy(p) == p
    ensures p in ArtifactPart(after)
  {
    WantedAt(catalog, p);
    assert Comes(None, BackupOf(catalog), p, p);
  }

  lemma TidyTwice(q: seq<string>)
    requires OnDisk(q) && MatchesAnyCase(ARTIFACTS, q[0])
    ensures Tidy(Tidy(q)) == Tidy(q) && Tidy(q) != [] && MatchesAnyCase(ARTIFACTS, Tidy(q)[0])
  {
    TidyArtifact(q);
    TidyIsClean(q);
  }

  lemma ComesBackIff(catalog: Tree, later: Tree, after: Tree)
    requires forall q :: q in catalog ==> OnDisk(q)
    requires AllLeft(None, BackupOf(catalog), later, after)
    ensures ArtifactPart(after) == Wanted(catalog) <==> BringsBack(catalog)
  {
    var back, wanted := ArtifactPart(after), Wanted(catalog);
    if BringsBack(catalog) {
      forall p
        ensures p in back <==> p in wanted
        ensures p in back ==> back[p] == wanted[p]
      {
        assert LeftAt(None, BackupOf(catalog), later, after, p);
        WantedAt(catalog, p);
        if p in back {
          ArtifactComes(catalog, later, after, p);
        }
        if p in wanted {
          WantedComes(catalog, later, after, p);
        }
      }
      SameTree(back, wanted);
    }
    if back == wanted {
      forall p | p in wanted
        ensures p in BackupOf(catalog) && Tidy(p) == p
      {
        assert LeftAt(None, BackupOf(catalog), later, after, p);
        ArtifactComes(catalog, later, after, p);
        var q :| q in BackupOf(catalog) && q in wanted && Tidy(q) == p;
        TidyTwice(q);
        WantedAt(catalog, p);
      }
    }
  }

  // ---- a backup in one folder ----

  function Longer(files: Tree, n: nat): set<seq<string>> {
    set q | q in files && |q| >= n
  }

  /** Stripping the folder moves every file up, so the longest wanted path cannot be filled. */
  lemma {:induction false} OneFolderLoses(catalog: Tree, later: Tree, after: Tree, root: string, q: seq<string>)
    requires (forall o :: o in catalog ==> OnDisk(o)) && OneFolder(BackupOf(catalog), root)
    requires AllLeft(Some(root), BackupOf(catalog), later, after)
    requires q in Wanted(catalog) && q in BackupOf(catalog)
    ensures ArtifactPart(after) != Wanted(catalog)
    decreases |Longer(BackupOf(catalog), |q|)|
  {
    var backup := BackupOf(catalog);
    if ArtifactPart(after) == Wanted(catalog) {
      assert LeftAt(Some(root), backup, later, after, q);
      WantedAt(catalog, q);
      ArtifactsAreSwept(q);
      var o :| Comes(Some(root), backup, o, q);
      DeeperIsWanted(catalog, root, q, o);
      Fewer(backup, q, |o|);
      OneFolderLoses(catalog, later, after, root, o);
    }
  }

  lemma Fewer(files: Tree, q: seq<string>, n: nat)
    requires q in files && n > |q|
    ensures |Longer(files, n)| < |Longer(files, |q|)|
  {
    var few, many := Longer(files, n), Longer(files, |q|);
    assert q in many && q !in few && few <= many - {q};
    Smaller(few, many - {q});
  }

  lemma DeeperIsWanted(catalog: Tree, root: string, q: seq<string>, o: seq<string>)
    requires (forall x :: x in catalog ==> OnDisk(x)) && OneFolder(BackupOf(catalog), root)
    requires q in Wanted(catalog) && q in BackupOf(catalog) && Comes(Some(root), BackupOf(catalog), o, q)
    ensures o in Wanted(catalog) && |o| == |q| + 1
  {
    WantedAt(catalog, q);
    WantedAt(catalog, o);
    ExactIsArtifact(o);
    StepDown(BackupOf(catalog), root, o, q);
    TidyArtifact(q);
    TidyArtifact(o);
    NotSweptAt(TransientOf(CLEANUP), q, 0);
    SweptOfSum(TransientOf(CLEANUP), root, q);
  }

  lemma Uncons(a: seq<string>)
    requires a != []
    ensures a == [a[0]] + a[1..]
  {
  }

  lemma StepDown(backup: Tree, root: string, o: seq<string>, q: seq<string>)
    requires OneFolder(backup, root) && q in backup && Comes(Some(root), backup, o, q)
    ensures o != [] && Tidy(o) == [root] + q && Tidy(q) != [] && Tidy(q)[0] == root && |o| == |Tidy(o)|
  {
    assert LevelOfPath(Tidy(q)) == Inside(root) && LevelOfPath(Tidy(o)) == Inside(root);
    Uncons(Tidy(o));
  }

  lemma NotSweptAt(patterns: seq<Pattern>, q: seq<string>, k: nat)
    requires !Swept(patterns, q) && k < |q|
    ensures !MatchesAny(patterns, q[k])
  {
  }

  // ---- the theorem ----

  lemma FolderComesBack(base: seq<string>, catalog: Tree, order: seq<seq<string>>, archive: seq<Entry>,
                        later: Tree, root: Option<string>)
    requires base != [] && (forall q :: q in catalog ==> OnDisk(q))
    requires ArchiveOf(archive, BackupOf(catalog), order) && Strips(archive, true, root)
    ensures var restored := Restored(base, root, archive, later);
            && restored.Some? && AllLeft(root, BackupOf(catalog), later, restored.value)
            && (root.None? ==> (ArtifactPart(restored.value) == Wanted(catalog) <==> BringsBack(catalog)))
            && (root.Some? && (exists q :: q in Wanted(catalog) && q in BackupOf(catalog)) ==>
                  ArtifactPart(restored.value) != Wanted(catalog))
    ensures root.Some? <==> exists r :: OneFolder(BackupOf(catalog), r)
  {
    var backup := BackupOf(catalog);
    forall q | q in backup
      ensures Stored(q) && Names(Landing(root, q))
    {
      TidyArtifact(q);
      assert forall k :: 0 <= k < |Tidy(q)[1..]| ==> Tidy(q)[1..][k] == Tidy(q)[k + 1];
    }
    StripsIff(archive, backup, order, root);
    RestoredLeaves(base, backup, order, archive, later, root);
    var after := Restored(base, root, archive, later).value;
    if root.Some? {
      if q :| q in Wanted(catalog) && q in backup {
        OneFolderLoses(catalog, later, after, root.value, q);
      }
    } else {
      ComesBackIff(catalog, later, after);
    }
  }

  /** A file that is no wanted artifact of the folder lands as one. */
  predicate Impostor(root: Option<string>, packed: Tree, catalog: Tree) {
    exists q :: q in packed && q !in Wanted(catalog) && IsArtifact(Landing(root, q))
      && !Swept(TransientOf(CLEANUP), Landing(root, q))
  }

  /** Artifacts are there after a restore exactly when an impostor or a wanted artifact landed as one. */
  lemma ArtifactsLanded(root: Option<string>, packed: Tree, catalog: Tree, later: Tree, after: Tree)
    requires AllLeft(root, packed, later, after) && forall q :: q in Wanted(catalog) ==> q !in packed
    ensures ArtifactPart(after) != map[] <==> Impostor(root, packed, catalog)
  {
    if ArtifactPart(after) != map[] {
      var p :| p in ArtifactPart(after);
      ArtifactsAreSwept(p);
      assert LeftAt(root, packed, later, after, p);
      var q :| Comes(root, packed, q, p);
    }
    if Impostor(root, packed, catalog) {
      var q :| q in packed && q !in Wanted(catalog) && IsArtifact(Landing(root, q))
        && !Swept(TransientOf(CLEANUP), Landing(root, q));
      assert LeftAt(root, packed, later, after, Landing(root, q)) && Comes(root, packed, q, Landing(root, q));
      assert Landing(root, q) in ArtifactPart(after);
    }
  }

  lemma SubOnDisk(disk: Tree, base: seq<string>)
    requires forall q :: q in disk ==> OnDisk(q)
    ensures forall r :: r in Sub(disk, base) ==> OnDisk(r)
  {
    forall r | r in Sub(disk, base)
      ensures OnDisk(r)
    {
      SubAt(disk, base, r);
      forall k | 0 <= k < |r|
        ensures Name(r[k])
      {
        assert (base + r)[|base| + k] == r[k];
      }
      assert (base + r)[|base + r| - 1] == r[|r| - 1];
    }
  }

  /** A relative path that climbs `u` folders and then leads to a file. */
  predicate Climbs(r: seq<string>, u: nat) {
    && 0 < u && u + 1 < |r| && Name(TrimRight(r[|r| - 1]))
    && forall k :: 0 <= k < |r| ==> if k < u then r[k] == ".." else Name(r[k])
  }

  lemma ClimbingPath(q: seq<string>, n: nat, u: nat)
    requires OnDisk(q) && 0 < u && n + u < |q|
    ensures Climbs(Ups(u) + q[n..], u)
  {
    var r := Ups(u) + q[n..];
    forall k | 0 <= k < |r|
      ensures if k < u then r[k] == ".." else Name(r[k])
    {
      assert k >= u ==> r[k] == q[n + k - u];
    }
    assert r[|r| - 1] == q[|q| - 1];
  }

  /** What lies beside a bracketed folder is packed with a path that climbs. */
  lemma BesideClimbs(base: seq<string>, disk: Tree, r: seq<string>)
    requires Bracketed(base) && (forall q :: q in disk ==> OnDisk(q)) && r in Discovered(base, disk)
    ensures FirstBracket(base) < |base| && Climbs(r, |base| - FirstBracket(base))
  {
    DiscoversElsewhere(base, disk, r);
    var q, n := Absolute(base, r), FirstBracket(base);
    assert OnDisk(q);
    ClimbingPath(q, n, |base| - n);
  }

  /** Its tidied path starts with a climb, and goes on with another one unless it climbs just once. */
  predicate StoredBeside(r: seq<string>, u: nat) {
    && r != [] && Stored(r) && |Tidy(r)| > 1 && Tidy(r)[0] == ".."
    && if u > 1 then Tidy(r)[1] == ".." else Names(Tidy(r)[1..])
  }

  lemma ClimbingTidy(r: seq<string>, u: nat)
    requires Climbs(r, u)
    ensures StoredBeside(r, u)
  {
    var t := Tidy(r);
    assert TrimLeft("..") == "..";
    forall k | 0 <= k < |t|
      ensures if k < u then t[k] == ".." else Name(t[k])
    {
      assert 0 < k < |r| - 1 ==> t[k] == r[k];
    }
    assert Parts(r) && Parts(t);
  }

  lemma AllStoredBeside(base: seq<string>, disk: Tree)
    requires Bracketed(base) && forall q :: q in disk ==> OnDisk(q)
    ensures FirstBracket(base) < |base|
    ensures forall r :: r in Discovered(base, disk) ==> StoredBeside(r, |base| - FirstBracket(base))
  {
    BracketIsThere(base);
    forall r | r in Discovered(base, disk)
      ensures StoredBeside(r, |base| - FirstBracket(base))
    {
      BesideClimbs(base, disk, r);
      ClimbingTidy(r, |base| - FirstBracket(base));
    }
  }

  /** Files that all climb are restored one folder down, if they climb once, and blocked otherwise. */
  lemma ClimbersComeBack(base: seq<string>, packed: Tree, u: nat, order: seq<seq<string>>, archive: seq<Entry>,
                         later: Tree, root: Option<string>)
    requires base != [] && ArchiveOf(archive, packed, order) && Strips(archive, true, root)
    requires forall r :: r in packed ==> StoredBeside(r, u)
    ensures var restored := Restored(base, root, archive, later);
            && (restored.None? <==> packed != map[] && u > 1)
            && (restored.Some? ==> AllLeft(root, packed, later, restored.value))
  {
    assert packed != map[] ==> OneFolder(packed, "..");
    StripsIff(archive, packed, order, root);
    if packed != map[] {
      var r :| r in packed;
      assert StoredBeside(r, u) && LevelOfPath(Tidy(r)) == Inside("..");
      assert root == Some("..");
    }
    if packed != map[] && u > 1 {
      NothingExtracted(base, packed, u, order, archive, Cleaned(CLEANUP, later));
    } else {
      RestoredLeaves(base, packed, order, archive, later, root);
    }
  }

  lemma NothingExtracted(base: seq<string>, packed: Tree, u: nat, order: seq<seq<string>>, archive: seq<Entry>,
                         tree: Tree)
    requires ArchiveOf(archive, packed, order) && packed != map[] && u > 1
    requires forall r :: r in packed ==> StoredBeside(r, u)
    ensures ExtractAll(base, Some(".."), archive, tree) == None
  {
    var step := (e, t) => ExtractOne(base, Some(".."), e, t);
    assert |archive| > 0 by {
      var r :| r in packed;
      assert r in order;
    }
    assert PackedAt(archive[0], packed, order[0]);
    FirstBlocked(base, order[0], u, packed[order[0]], tree);
    assert archive[..1][..0] == [] && ThroughAll(step, [], tree) == Some(tree);
    assert ThroughAll(step, archive[..1], tree) == None;
    StaysBlocked(step, archive, tree, 1);
  }

  lemma FirstBlocked(base: seq<string>, r: seq<string>, u: nat, content: Content, tree: Tree)
    requires StoredBeside(r, u) && u > 1
    ensures ExtractOne(base, Some(".."), Packed(r, content), tree) == None
  {
    TidyIsClean(r);
    ExtractClimbing(base, Some(".."), r, content, tree);
  }

  /** The restore gets stuck: what was packed lies two folders up or more. */
  predicate Stuck(base: seq<string>, disk: Tree) {
    Discovered(base, disk) != map[] && FirstBracket(base) + 1 < |base|
  }

  /** With a bracket in the folder's path nothing of the folder is packed. */
  lemma NothingWantedPacked(base: seq<string>, disk: Tree)
    requires Bracketed(base) && forall q :: q in disk ==> OnDisk(q)
    ensures forall q :: q in Wanted(Sub(disk, base)) ==> q !in Discovered(base, disk)
  {
    SubOnDisk(disk, base);
    forall q | q in Wanted(Sub(disk, base))
      ensures q !in Discovered(base, disk)
    {
      WantedAt(Sub(disk, base), q);
      if q in Discovered(base, disk) {
        BesideClimbs(base, disk, q);
      }
    }
  }

  /** Something wanted was packed. */
  predicate SomePacked(packed: Tree, catalog: Tree) {
    exists q :: q in Wanted(catalog) && q in packed
  }

  lemma BracketedVerdict(base: seq<string>, disk: Tree, order: seq<seq<string>>, archive: seq<Entry>,
                         later: Tree, root: Option<string>)
    requires base != [] && Bracketed(base) && forall q :: q in disk ==> OnDisk(q)
    requires ArchiveOf(archive, Discovered(base, disk), order) && Strips(archive, true, root)
    ensures var catalog, packed := Sub(disk, base), Discovered(base, disk);
            var restored := Restored(base, root, archive, later);
            && (restored.None? <==> Stuck(base, disk)) && !SomePacked(packed, catalog)
            && (restored.Some? ==>
                  && AllLeft(root, packed, later, restored.value)
                  && (ArtifactPart(restored.value) != map[] <==> Impostor(root, packed, catalog)))
  {
    var catalog, packed, restored := Sub(disk, base), Discovered(base, disk), Restored(base, root, archive, later);
    AllStoredBeside(base, disk);
    ClimbersComeBack(base, packed, |base| - FirstBracket(base), order, archive, later, root);
    NothingWantedPacked(base, disk);
    if restored.Some? {
      ArtifactsLanded(root, packed, catalog, later, restored.value);
    }
  }

  lemma PlainVerdict(base: seq<string>, disk: Tree, order: seq<seq<string>>, archive: seq<Entry>,
                     later: Tree, root: Option<string>)
    requires base != [] && !Bracketed(base) && forall q :: q in disk ==> OnDisk(q)
    requires ArchiveOf(archive, Discovered(base, disk), order) && Strips(archive, true, root)
    ensures var catalog, packed := Sub(disk, base), Discovered(base, disk);
            var restored := Restored(base, root, archive, later);
            && restored.Some? && AllLeft(root, packed, later, restored.value) && packed == BackupOf(catalog)
            && (root.None? ==> (ArtifactPart(restored.value) == Wanted(catalog) <==> BringsBack(catalog)))
            && (root.Some? && SomePacked(packed, catalog) ==> ArtifactPart(restored.value) != Wanted(catalog))
            && (!SomePacked(packed, catalog) ==>
                  (ArtifactPart(restored.value) != map[] <==> Impostor(root, packed, catalog)))
    ensures root.Some? <==> exists r :: OneFolder(BackupOf(Sub(disk, base)), r)
  {
    var catalog, packed, restored := Sub(disk, base), Discovered(base, disk), Restored(base, root, archive, later);
    SubOnDisk(disk, base);
    DiscoversFolder(base, disk);
    FolderComesBack(base, catalog, order, archive, later, root);
    if !SomePacked(packed, catalog) {
      ArtifactsLanded(root, packed, catalog, later, restored.value);
    }
  }

  /** Backing up a catalog folder and restoring the backup over whatever the folder became later, on any
      disk and for any path of the folder. The restore succeeds unless brackets above the folder made
      discovery look elsewhere. If there is something to bring back, it comes back, minus transient files,
      exactly when no artifact was overlooked for the case of its name, none has outer spaces, the backup
      does not lie in one folder, which is taken for a wrapper, and the folder's path has no bracket. Only
      where nothing of that was packed and something else poses for it is the answer left to `AllLeft`,
      which says of every path what the restore leaves there. */
  lemma BackupThenRestore(base: seq<string>, disk: Tree, order: seq<seq<string>>, archive: seq<Entry>,
                          later: Tree, root: Option<string>)
    requires base != [] && forall q :: q in disk ==> OnDisk(q)
    requires ArchiveOf(archive, Discovered(base, disk), order) && Strips(archive, true, root)
    ensures var catalog, packed := Sub(disk, base), Discovered(base, disk);
            var restored := Restored(base, root, archive, later);
            && (restored.None? <==> Stuck(base, disk))
            && (restored.Some? ==> AllLeft(root, packed, later, restored.value))
            && (restored.Some? && Wanted(catalog) == map[] ==>
                  (ArtifactPart(restored.value) == Wanted(catalog) <==> !Impostor(root, packed, catalog)))
            && (restored.Some? && Wanted(catalog) != map[]
                && (SomePacked(packed, catalog) || !Impostor(root, packed, catalog)) ==>
                  (ArtifactPart(restored.value) == Wanted(catalog) <==>
                     && !Overlooks(catalog) && !Misnames(catalog)
                     && (forall r :: !OneFolder(BackupOf(catalog), r)) && !Bracketed(base)))
  {
    var catalog := Sub(disk, base);
    BracketIsThere(base);
    BringsBackIff(catalog);
    if Bracketed(base) {
      BracketedVerdict(base, disk, order, archive, later, root);
    } else {
      PlainVerdict(base, disk, order, archive, later, root);
    }
  }

  /** A backup with a file at the top, such as the catalog itself, does not lie in a single folder. */
  lemma RootFileIsEnough(catalog: Tree, name: string)
    requires [name] in BackupOf(catalog)
    ensures forall r :: !OneFolder(BackupOf(catalog), r)
  {
    assert LevelOfPath(Tidy([name])) == TopFile;
  }
}
