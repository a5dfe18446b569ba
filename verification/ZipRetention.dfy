/** Keeping the newest zips of a backup folder and deleting the rest. */
module ZipRetention {
  import opened Sets
  import opened Text

  datatype Zip = Zip(path: string, mtime: int)

  /** The files of a folder tree, by path, with their times. */
  type Tree = map<string, int>

  predicate IsZip(path: string) {
    HasSuffix(Lower(path), ".zip")
  }

  function Zips(files: Tree): set<Zip> {
    set p | p in files && IsZip(p) :: Zip(p, files[p])
  }

  /** Newest first; of equal times the greater path first. */
  predicate Newer(a: Zip, b: Zip) {
    a.mtime > b.mtime || (a.mtime == b.mtime && Less(b.path, a.path))
  }

  function Limit(maxBackups: int): nat {
    if maxBackups <= 0 then 1 else maxBackups
  }

  lemma NewerIsTotal(a: Zip, b: Zip)
    ensures Newer(a, b) || Newer(b, a) || a == b
    ensures !(Newer(a, b) && Newer(b, a)) && !Newer(a, a)
  {
    LessIsTotal(a.path, b.path);
    LessIsTotal(a.path, a.path);
  }

  lemma NewerIsTransitive(a: Zip, b: Zip, c: Zip)
    requires Newer(a, b) && Newer(b, c)
    ensures Newer(a, c)
  {
    if a.mtime == b.mtime == c.mtime {
      LessIsTransitive(c.path, b.path, a.path);
    }
  }

  /** The zips newer than `z`: `z` is kept when there are fewer of them than the limit. */
  function NewerThan(zips: set<Zip>, z: Zip): set<Zip> {
    set y | y in zips && Newer(y, z)
  }

  predicate Kept(files: Tree, limit: nat, path: string)
    requires path in files
  {
    IsZip(path) ==> |NewerThan(Zips(files), Zip(path, files[path]))| < limit
  }

  // ---- sorting ----

  predicate NewestFirst(s: seq<Zip>) {
    forall i, j :: 0 <= i < j < |s| ==> Newer(s[i], s[j])
  }

  function Members(s: seq<Zip>): set<Zip> {
    set z | z in s
  }

  function Insert(z: Zip, s: seq<Zip>): seq<Zip> {
    if s == [] || Newer(z, s[0]) then [z] + s else [s[0]] + Insert(z, s[1..])
  }

  lemma {:induction false} InsertSorts(z: Zip, s: seq<Zip>)
    requires NewestFirst(s) && z !in s
    ensures NewestFirst(Insert(z, s)) && Members(Insert(z, s)) == Members(s) + {z} && |Insert(z, s)| == |s| + 1
  {
    if s == [] {
    } else if Newer(z, s[0]) {
      forall j | 0 < j < |s|
        ensures Newer(z, s[j])
      {
        NewerIsTransitive(z, s[0], s[j]);
      }
      assert Members([z] + s) == Members(s) + {z};
    } else {
      NewerIsTotal(z, s[0]);
      InsertSorts(z, s[1..]);
      var rest := Insert(z, s[1..]);
      assert s == [s[0]] + s[1..];
      forall j | 0 <= j < |rest|
        ensures Newer(s[0], rest[j])
      {
        assert rest[j] in Members(s[1..]) + {z};
      }
      assert Members([s[0]] + rest) == {s[0]} + Members(rest);
      assert Members(s) == {s[0]} + Members(s[1..]);
    }
  }

  lemma {:induction false} SortedIsDistinct(s: seq<Zip>)
    requires NewestFirst(s)
    ensures |Members(s)| == |s|
  {
    if s != [] {
      var last, front := s[|s| - 1], s[..|s| - 1];
      SortedIsDistinct(front);
      forall k | 0 <= k < |front|
        ensures front[k] != last
      {
        NewerIsTotal(s[k], last);
      }
      assert Members(s) == Members(front) + {last};
    }
  }

  /** In a sorted listing the position is the number of newer zips. */
  lemma PositionIsRank(s: seq<Zip>, i: nat)
    requires NewestFirst(s) && i < |s|
    ensures |NewerThan(Members(s), s[i])| == i
  {
    var before := s[..i];
    SortedIsDistinct(before);
    forall z
      ensures z in NewerThan(Members(s), s[i]) <==> z in Members(before)
    {
      if z in NewerThan(Members(s), s[i]) {
        var k :| 0 <= k < |s| && s[k] == z;
        NewerIsTotal(s[k], s[i]);
        assert k < i;
        assert before[k] == z;
      }
    }
    assert NewerThan(Members(s), s[i]) == Members(before);
  }

  // ---- the cleanup ----

  /** Lists the zips of a folder, newest first. */
  method ListZips(files: Tree) returns (listed: seq<Zip>)
    ensures NewestFirst(listed) && Members(listed) == Zips(files) && |listed| == |Zips(files)|
  {
    listed := [];
    var todo := Zips(files);
    while todo != {}
      invariant todo <= Zips(files) && NewestFirst(listed) && Members(listed) == Zips(files) - todo
    {
      var z :| z in todo;
      assert z !in listed by {
        assert z !in Members(listed);
      }
      InsertSorts(z, listed);
      listed := Insert(z, listed);
      todo := todo - {z};
    }
    SortedIsDistinct(listed);
  }

  lemma ListedAre(files: Tree, listed: seq<Zip>, limit: nat)
    requires Members(listed) == Zips(files) && NewestFirst(listed)
    ensures forall i :: 0 <= i < |listed| ==>
              var p := listed[i].path;
              p in files && listed[i] == Zip(p, files[p]) && IsZip(p) && (Kept(files, limit, p) <==> i < limit)
  {
    forall i | 0 <= i < |listed|
      ensures var p := listed[i].path;
              p in files && listed[i] == Zip(p, files[p]) && IsZip(p) && (Kept(files, limit, p) <==> i < limit)
    {
      assert listed[i] in Members(listed);
      PositionIsRank(listed, i);
    }
  }

  lemma AllListed(files: Tree, listed: seq<Zip>)
    requires Members(listed) == Zips(files)
    ensures forall p :: p in files && IsZip(p) ==> exists i :: 0 <= i < |listed| && listed[i].path == p
  {
    forall p | p in files && IsZip(p)
      ensures exists i :: 0 <= i < |listed| && listed[i].path == p
    {
      assert Zip(p, files[p]) in Members(listed);
    }
  }

  function Paths(zips: seq<Zip>): (paths: seq<string>)
    ensures |paths| == |zips| && forall i :: 0 <= i < |zips| ==> paths[i] == zips[i].path
  {
    seq(|zips|, i requires 0 <= i < |zips| => zips[i].path)
  }

  function Without(files: Tree, removed: seq<string>): Tree {
    map p | p in files && p !in removed :: files[p]
  }

  /** The paths of the listed zips from the limit up to `k`. */
  function Surplus(listed: seq<Zip>, limit: nat, k: nat): seq<string>
    requires k <= |listed| || k == limit
  {
    if limit <= k <= |listed| then Paths(listed[limit..k]) else []
  }

  lemma SurplusIff(files: Tree, listed: seq<Zip>, limit: nat, k: nat, p: string)
    requires Members(listed) == Zips(files) && NewestFirst(listed) && (k <= |listed| || k == limit)
    ensures p in Surplus(listed, limit, k) ==> p in files && !Kept(files, limit, p)
    ensures k >= |listed| && p in files && !Kept(files, limit, p) ==> p in Surplus(listed, limit, k)
  {
    ListedAre(files, listed, limit);
    if p in Surplus(listed, limit, k) {
      var i :| 0 <= i < k - limit && listed[limit..k][i].path == p;
      assert listed[limit + i].path == p;
    }
    if k >= |listed| && p in files && !Kept(files, limit, p) {
      AllListed(files, listed);
      var i :| 0 <= i < |listed| && listed[i].path == p;
      assert Surplus(listed, limit, k)[i - limit] == p;
    }
  }

  lemma SurplusGrows(listed: seq<Zip>, limit: nat, k: nat)
    requires limit <= k < |listed|
    ensures Surplus(listed, limit, k + 1) == Surplus(listed, limit, k) + [listed[k].path]
  {
    assert listed[limit..k + 1] == listed[limit..k] + [listed[k]];
  }

  /** Deletes all but the newest zips; a deletion that fails ends the cleanup. On success exactly the
      zips with fewer newer ones than the limit remain, and nothing else was touched. At least one is kept. */
  method CleanupZipRetention(files: Tree, maxBackups: int, stuck: set<string>)
    returns (after: Tree, removed: seq<string>, ok: bool)
    ensures ok ==> forall p :: p in after <==> p in files && Kept(files, Limit(maxBackups), p)
    ensures forall p :: p in after ==> p in files && after[p] == files[p]
    ensures forall p :: p in files && Kept(files, Limit(maxBackups), p) ==> p in after
    ensures forall p :: p in files && p !in after <==> p in removed
    ensures ok && |Zips(files)| <= maxBackups ==> after == files
    ensures ok && |Zips(files)| > maxBackups > 0 ==> |Zips(after)| == maxBackups
    ensures ok && Zips(files) != {} && maxBackups <= 0 ==> |Zips(after)| == 1
    ensures stuck == {} ==> ok
  {
    after, removed, ok := files, [], true;
    var listed := ListZips(files);
    var limit := Limit(maxBackups);
    var k := limit;
    while k < |listed| && ok
      invariant k >= limit && (k <= |listed| || k == limit)
      invariant removed == Surplus(listed, limit, k) && after == Without(files, removed)
      invariant stuck == {} ==> ok
      decreases |listed| - k, ok
    {
      var path := listed[k].path;
      if path in stuck {
        ok := false;
      } else {
        SurplusGrows(listed, limit, k);
        after := after - {path};
        removed := removed + [path];
        k := k + 1;
      }
    }
    forall p
      ensures p in removed ==> p in files && !Kept(files, limit, p)
      ensures ok && p in files && !Kept(files, limit, p) ==> p in removed
    {
      SurplusIff(files, listed, limit, k, p);
    }
    if ok {
      ListedAre(files, listed, limit);
      KeptZips(files, after, listed, limit);
    }
  }

  lemma KeptZips(files: Tree, after: Tree, listed: seq<Zip>, limit: nat)
    requires Members(listed) == Zips(files) && NewestFirst(listed)
    requires forall i :: 0 <= i < |listed| ==>
               listed[i].path in files && (Kept(files, limit, listed[i].path) <==> i < limit)
    requires forall p :: p in after <==> p in files && Kept(files, limit, p)
    requires forall p :: p in after ==> after[p] == files[p]
    ensures |Zips(after)| == if |listed| < limit then |listed| else limit
    ensures |listed| <= limit ==> after == files
  {
    var kept := if |listed| < limit then listed else listed[..limit];
    AllListed(files, listed);
    SortedIsDistinct(kept);
    forall z | z in Zips(after)
      ensures z in Members(kept)
    {
      assert z in Members(listed);
      var i :| 0 <= i < |listed| && listed[i] == z;
      assert kept[i] == z;
    }
    forall i | 0 <= i < |kept|
      ensures kept[i] in Zips(after)
    {
      assert kept[i] == listed[i] && listed[i] in Members(listed);
    }
    assert Zips(after) == Members(kept);
  }

  // ---- what the rule means ----

  lemma DotEnds(a: string, b: string, c: string)
    requires '.' !in b && '.' !in c
    ensures HasSuffix(a + "." + b, "." + c) <==> b == c
  {
    var s, t := a + "." + b, "." + c;
    assert s[|a| + 1..] == b && t[1..] == c;
    assert forall k :: 0 < k < |t| ==> t[k] == c[k - 1];
    assert forall k :: |a| < k < |s| ==> s[k] == b[k - |a| - 1];
    if HasSuffix(s, t) {
      var o := |s| - |t|;
      assert s[o..][0] == '.' && o <= |a|;
      assert s[o..][|a| - o] == s[|a|];
      assert o == |a|;
      assert s[o..][1..] == s[o + 1..];
    }
  }

  /** A file is a zip by its extension, whatever its case. */
  lemma IsZipByExtension(stem: string, extension: string)
    requires '.' !in extension
    ensures IsZip(stem + "." + extension) <==> Lower(extension) == "zip"
  {
    assert Lower(stem + "." + extension) == Lower(stem) + "." + Lower(extension);
    assert '.' !in Lower(extension) by {
      assert forall k :: 0 <= k < |extension| ==> extension[k] in extension;
    }
    DotEnds(Lower(stem), Lower(extension), "zip");
    assert "." + "zip" == ".zip";
  }

  /** Every kept zip is later than every removed one, or as late and behind it by name. */
  lemma KeptAreNewer(files: Tree, limit: nat, p: string, q: string)
    requires p in files && q in files && IsZip(p) && IsZip(q)
    requires Kept(files, limit, p) && !Kept(files, limit, q)
    ensures files[p] > files[q] || (files[p] == files[q] && Less(q, p))
  {
    var zips, a, b := Zips(files), Zip(p, files[p]), Zip(q, files[q]);
    NewerIsTotal(a, b);
    if Newer(b, a) || a == b {
      forall y | y in NewerThan(zips, b)
        ensures y in NewerThan(zips, a)
      {
        if Newer(b, a) {
          NewerIsTransitive(y, b, a);
        }
      }
      Smaller(NewerThan(zips, b), NewerThan(zips, a));
      assert false;
    }
  }

  /** A second cleanup with the same limit removes nothing. */
  lemma SecondCleanupIsIdle(files: Tree, after: Tree, limit: nat, p: string)
    requires forall q :: q in after <==> q in files && Kept(files, limit, q)
    requires forall q :: q in after ==> after[q] == files[q]
    requires p in after
    ensures Kept(after, limit, p)
  {
    if IsZip(p) {
      var z := Zip(p, files[p]);
      assert Zips(after) <= Zips(files);
      Smaller(NewerThan(Zips(after), z), NewerThan(Zips(files), z));
    }
  }

  /** The zip about to be restored survives the cleanup before it whenever no other zip is newer. */
  lemma NewestSurvives(files: Tree, maxBackups: int, p: string)
    requires p in files && IsZip(p)
    requires forall q :: q in files && IsZip(q) && q != p ==>
               files[p] > files[q] || (files[p] == files[q] && Less(q, p))
    ensures Kept(files, Limit(maxBackups), p)
  {
    var z := Zip(p, files[p]);
    forall y | y in Zips(files)
      ensures !Newer(y, z)
    {
      NewerIsTotal(y, z);
    }
    assert NewerThan(Zips(files), z) == {};
  }
}
