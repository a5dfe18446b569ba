/** Which relative paths a preset scan sees, and which categories a machine tracks. */
module PresetPaths {
  import opened Text

  /** A slash-separated path relative to a preset root. */
  datatype Path = Path(text: string)

  /** How one machine sees a path: in a selected category, listed by the network scan,
      listed by the local scan. */
  datatype Reach = Reach(tracked: bool, netScan: bool, localScan: bool)

  function Segments(p: Path): (parts: seq<string>)
    ensures |parts| >= 1
  {
    Split(p.text, '/')
  }

  /** The part of the last segment from its last dot on, in lower case; empty without a dot. */
  function Extension(p: Path): string {
    var name := Segments(p)[|Segments(p)| - 1];
    Lower(FromLastDot(name))
  }

  function FromLastDot(name: string): string {
    if name == "" then ""
    else
      var rest := FromLastDot(name[1..]);
      if rest != "" then rest else if name[0] == '.' then name else ""
  }

  predicate InLogoFolder(p: Path) {
    "Logos" in Segments(p)[..|Segments(p)| - 1]
  }

  predicate TrackedCategory(categories: set<string>, p: Path) {
    Segments(p)[0] != "" && Lower(Segments(p)[0]) in categories
  }

  /** Temporary and lock files, and everything below a logo folder, are invisible to every scan. */
  predicate Scannable(p: Path) {
    !InLogoFolder(p) && Extension(p) != ".tmp" && Extension(p) != ".lock" && |Segments(p)| >= 2
  }

  /** The local scan lists no more than the network scan, and that one only selected categories. */
  predicate Nested(reach: Reach) {
    (reach.localScan ==> reach.netScan) && (reach.netScan ==> reach.tracked)
  }

  function ReachOf(categories: set<string>, p: Path): (r: Reach)
    ensures Nested(r)
  {
    var tracked := TrackedCategory(categories, p);
    var seen := tracked && Scannable(p);
    Reach(tracked, seen, seen && Extension(p) != ".json")
  }

  /** A preset file in the folder of a selected category is seen by both scans. */
  lemma PresetOfCategory(category: string, name: string, extension: string)
    requires category != "" && '/' !in category && Lower(category) == category && category != "Logos"
    requires '/' !in name && '.' !in extension && '/' !in extension
    requires Lower(extension) != "tmp" && Lower(extension) != "lock" && Lower(extension) != "json"
    ensures ReachOf({category}, Path(category + "/" + name + "." + extension)) == Reach(true, true, true)
  {
    var file := name + "." + extension;
    var p := Path(category + "/" + file);
    assert p.text == category + ['/'] + file == category + "/" + name + "." + extension;
    SplitHead(category, file, '/');
    SplitPart(file, '/');
    assert Segments(p) == [category, file];
    LastDot(name, extension);
    LowerOfSum(".", extension);
    assert Extension(p)[1..] == Lower(extension);
    assert ".tmp"[1..] == "tmp" && ".lock"[1..] == "lock" && ".json"[1..] == "json";
    assert [category, file][..1] == [category];
  }

  lemma {:induction false} LastDot(name: string, extension: string)
    requires '.' !in extension
    ensures FromLastDot(name + "." + extension) == "." + extension
  {
    var s := name + "." + extension;
    if name == "" {
      assert s[1..] == extension;
      NoDot(extension);
    } else {
      assert s[1..] == name[1..] + "." + extension;
      LastDot(name[1..], extension);
    }
  }

  lemma {:induction false} NoDot(s: string)
    requires '.' !in s
    ensures FromLastDot(s) == ""
  {
    if s != "" {
      NoDot(s[1..]);
    }
  }

  lemma LowerOfSum(a: string, b: string)
    ensures Lower(a + b) == Lower(a) + Lower(b)
  {
  }

  // ---- what is not seen, by the text of the path ----

  lemma SegmentsOfSum(a: string, b: string)
    ensures Split(a + "/" + b, '/') == Split(a, '/') + Split(b, '/')
  {
    SplitSum(a, b, '/');
    assert a + ['/'] + b == a + "/" + b;
  }

  /** Nothing below a logo folder is seen, however deep. */
  lemma LogosAreUnseen(categories: set<string>, above: string, below: string)
    ensures var r := ReachOf(categories, Path(above + "/" + "Logos" + "/" + below));
            !r.netScan && !r.localScan
  {
    var p := Path(above + "/" + "Logos" + "/" + below);
    SegmentsOfSum(above, "Logos" + "/" + below);
    assert p.text == above + "/" + ("Logos" + "/" + below);
    SegmentsOfSum("Logos", below);
    SplitPart("Logos", '/');
    var n := |Split(above, '/')|;
    assert Segments(p) == Split(above, '/') + (["Logos"] + Split(below, '/'));
    assert Segments(p)[n] == "Logos" && n < |Segments(p)| - 1;
    assert Segments(p)[..|Segments(p)| - 1][n] == "Logos";
  }

  lemma ExtensionOf(folder: string, stem: string, extension: string)
    requires '/' !in stem && '/' !in extension && '.' !in extension
    ensures var p := Path(folder + "/" + stem + "." + extension);
            Extension(p) == "." + Lower(extension) && |Segments(p)| >= 2
  {
    var file := stem + "." + extension;
    var p := Path(folder + "/" + stem + "." + extension);
    assert p.text == folder + "/" + file;
    SegmentsOfSum(folder, file);
    SplitPart(file, '/');
    assert Segments(p)[|Segments(p)| - 1] == file;
    LastDot(stem, extension);
    LowerOfSum(".", extension);
    assert Lower(".") == ".";
  }

  lemma DottedAlike(e: string)
    ensures "." + e == ".tmp" <==> e == "tmp"
    ensures "." + e == ".lock" <==> e == "lock"
    ensures "." + e == ".json" <==> e == "json"
  {
    assert ("." + e)[1..] == e && ".tmp"[1..] == "tmp" && ".lock"[1..] == "lock" && ".json"[1..] == "json";
  }

  /** A file in a folder, by its extension in any case: temporary and lock files are never seen, `.json` files
      by the network scan alone, others by both scans or none. */
  lemma SeenByExtension(categories: set<string>, folder: string, stem: string, extension: string)
    requires '/' !in stem && '/' !in extension && '.' !in extension
    ensures var p := Path(folder + "/" + stem + "." + extension);
            var r, e := ReachOf(categories, p), Lower(extension);
            && (e == "tmp" || e == "lock" ==> !r.netScan && !r.localScan)
            && (e == "json" ==> !r.localScan && (r.netScan <==> r.tracked && !InLogoFolder(p)))
            && (e != "tmp" && e != "lock" && e != "json" ==>
                  (r.netScan <==> r.tracked && !InLogoFolder(p)) && r.localScan == r.netScan)
  {
    ExtensionOf(folder, stem, extension);
    DottedAlike(Lower(extension));
  }

  /** A file that lies in no folder is never seen. */
  lemma RootFilesAreUnseen(categories: set<string>, name: string)
    requires '/' !in name
    ensures !ReachOf(categories, Path(name)).netScan && !ReachOf(categories, Path(name)).localScan
  {
    SplitPart(name, '/');
  }

  /** The category is the first folder, in any case. */
  lemma CategoryDecides(categories: set<string>, category: string, rest: string)
    requires '/' !in category
    ensures ReachOf(categories, Path(category + "/" + rest)).tracked <==>
              category != "" && Lower(category) in categories
  {
    SegmentsOfSum(category, rest);
    SplitPart(category, '/');
  }
}
