/**
 Rewriting the logo paths in watermark templates. A template is text with matches of the pattern
 imagePath\s*=\s*"([^"]+)" in it; a rewriting replaces matches, left to right, and copies the rest.
 */
module WatermarkTemplate {
  import opened Text

  // ---- the pattern ----

  const KEYWORD := "imagePath"

  /** Where the pattern stands: so many letters of the keyword read, before or after the equals
      sign, or inside the quotes with part of the path read. */
  datatype Mode = Key(letters: nat) | BeforeEquals | AfterEquals | Quoted(path: string)

  predicate PatternSpace(c: char) {
    c == ' ' || c == '\t' || c == '\n' || c == '\r' || c as int == 12
  }

  /** Reads on from a mode: the captured path and what follows the closing quote. */
  function Run(mode: Mode, s: string): Option<(string, string)>
    decreases |s|
  {
    if s == "" then None
    else
      match mode
      case Key(k) =>
        if k < |KEYWORD| && s[0] == KEYWORD[k]
        then Run(if k + 1 == |KEYWORD| then BeforeEquals else Key(k + 1), s[1..])
        else None
      case BeforeEquals =>
        if PatternSpace(s[0]) then Run(BeforeEquals, s[1..])
        else if s[0] == '=' then Run(AfterEquals, s[1..])
        else None
      case AfterEquals =>
        if PatternSpace(s[0]) then Run(AfterEquals, s[1..])
        else if s[0] == '"' then Run(Quoted(""), s[1..])
        else None
      case Quoted(path) =>
        if s[0] != '"' then Run(Quoted(path + [s[0]]), s[1..])
        else if path == "" then None
        else Some((path, s[1..]))
  }

  /** A match of the pattern at the start of `s`. */
  function MatchAt(s: string): Option<(string, string)> {
    Run(Key(0), s)
  }

  lemma {:induction false} RunShortens(mode: Mode, s: string)
    requires Run(mode, s).Some?
    ensures |Run(mode, s).value.1| < |s| && '"' in s
    ensures s == s[..|s| - |Run(mode, s).value.1|] + Run(mode, s).value.1
    decreases |s|
  {
    if mode.Quoted? && s[0] == '"' {
    } else {
      var next := Step(mode, s[0]);
      RunShortens(next, s[1..]);
      assert s == [s[0]] + s[1..];
    }
  }

  /** The mode after one more character, when the pattern goes on. */
  function Step(mode: Mode, c: char): Mode {
    match mode
    case Key(k) => if k + 1 == |KEYWORD| then BeforeEquals else Key(k + 1)
    case BeforeEquals => if PatternSpace(c) then BeforeEquals else AfterEquals
    case AfterEquals => if PatternSpace(c) then AfterEquals else Quoted("")
    case Quoted(path) => Quoted(path + [c])
  }

  /** What follows a match does not matter. */
  lemma {:induction false} RunExtends(mode: Mode, s: string, more: string)
    requires Run(mode, s).Some?
    ensures Run(mode, s + more) == Some((Run(mode, s).value.0, Run(mode, s).value.1 + more))
    decreases |s|
  {
    assert (s + more)[1..] == s[1..] + more;
    if !(mode.Quoted? && s[0] == '"') {
      RunExtends(Step(mode, s[0]), s[1..], more);
    }
  }

  /** Inside the quotes any later quote ends the path. */
  lemma {:induction false} QuotedEnds(path: string, s: string)
    requires '"' in s && (path != "" || s[0] != '"')
    ensures Run(Quoted(path), s).Some?
    decreases |s|
  {
    if s[0] != '"' {
      assert s == [s[0]] + s[1..];
      QuotedEnds(path + [s[0]], s[1..]);
    }
  }

  /** The white space of the pattern. */
  predicate Blank(s: string) {
    forall c :: c in s ==> c == ' ' || c == '\t' || c == '\n' || c == '\r' || c as int == 12
  }

  /** The pattern, written out: the keyword, an equals sign with white space around it, and a nonempty path
      without quotes between quotes. */
  ghost predicate Reads(s: string, path: string, rest: string) {
    exists before, after :: ReadsWith(s, before, after, path, rest)
  }

  predicate ReadsWith(s: string, before: string, after: string, path: string, rest: string) {
    && Blank(before) && Blank(after) && path != "" && '"' !in path
    && s == "imagePath" + (before + ("=" + (after + ("\"" + (path + ("\"" + rest))))))
  }

  lemma {:induction false} BlankRead(mode: Mode, blank: string, tail: string)
    requires (mode == BeforeEquals || mode == AfterEquals) && Blank(blank)
    ensures Run(mode, blank + tail) == Run(mode, tail)
    decreases |blank|
  {
    if blank == "" {
      assert blank + tail == tail;
    } else {
      assert blank[0] in blank && forall c :: c in blank[1..] ==> c in blank;
      assert (blank + tail)[0] == blank[0] && (blank + tail)[1..] == blank[1..] + tail;
      BlankRead(mode, blank[1..], tail);
    }
  }

  lemma WrittenIsRead(s: string, before: string, after: string, path: string, rest: string)
    requires ReadsWith(s, before, after, path, rest)
    ensures MatchAt(s) == Some((path, rest))
  {
    var s3 := path + ("\"" + rest);
    var s2 := after + ("\"" + s3);
    var s1 := before + ("=" + s2);
    KeywordRead(0, s1);
    assert KEYWORD[0..] + s1 == s;
    BlankRead(BeforeEquals, before, "=" + s2);
    OneOn(BeforeEquals, '=', s2);
    BlankRead(AfterEquals, after, "\"" + s3);
    OneOn(AfterEquals, '"', s3);
    QuotedPath(path, "", rest);
    assert path + "\"" + rest == s3 && "" + path == path;
  }

  lemma {:induction false} KeyIsWritten(k: nat, s: string) returns (tail: string)
    requires k < |KEYWORD| && Run(Key(k), s).Some?
    ensures s == KEYWORD[k..] + tail && Run(Key(k), s) == Run(BeforeEquals, tail)
    decreases |KEYWORD| - k
  {
    assert s == [s[0]] + s[1..];
    if k + 1 == |KEYWORD| {
      tail := s[1..];
      assert KEYWORD[k..] == [s[0]];
    } else {
      tail := KeyIsWritten(k + 1, s[1..]);
      assert KEYWORD[k..] == [s[0]] + KEYWORD[k + 1..];
    }
  }

  lemma {:induction false} BlankIsWritten(mode: Mode, s: string) returns (blank: string, tail: string)
    requires (mode == BeforeEquals || mode == AfterEquals) && Run(mode, s).Some?
    ensures Blank(blank) && s == blank + ((if mode == BeforeEquals then "=" else "\"") + tail)
    ensures Run(mode, s) == Run(if mode == BeforeEquals then AfterEquals else Quoted(""), tail)
    decreases |s|
  {
    assert s == [s[0]] + s[1..];
    if PatternSpace(s[0]) {
      blank, tail := BlankIsWritten(mode, s[1..]);
      blank := [s[0]] + blank;
    } else {
      blank, tail := "", s[1..];
    }
  }

  lemma {:induction false} QuotedIsWritten(read: string, s: string) returns (more: string)
    requires Run(Quoted(read), s).Some?
    ensures var (path, rest) := Run(Quoted(read), s).value;
            path == read + more && path != "" && '"' !in more && s == more + ("\"" + rest)
    decreases |s|
  {
    assert s == [s[0]] + s[1..];
    if s[0] == '"' {
      more := "";
    } else {
      more := QuotedIsWritten(read + [s[0]], s[1..]);
      assert read + [s[0]] + more == read + ([s[0]] + more);
      more := [s[0]] + more;
    }
  }

  /** The automaton finds a match exactly where the pattern is written, with the same path. */
  lemma MatchIff(s: string, path: string, rest: string)
    ensures MatchAt(s) == Some((path, rest)) <==> Reads(s, path, rest)
  {
    if before, after :| ReadsWith(s, before, after, path, rest) {
      WrittenIsRead(s, before, after, path, rest);
    }
    if MatchAt(s) == Some((path, rest)) {
      var s1 := KeyIsWritten(0, s);
      var before, s2 := BlankIsWritten(BeforeEquals, s1);
      var after, s3 := BlankIsWritten(AfterEquals, s2);
      var quoted := QuotedIsWritten("", s3);
      assert quoted == path && KEYWORD[0..] == "imagePath";
      assert ReadsWith(s, before, after, path, rest);
    }
  }

  // ---- templates as pieces ----

  datatype Piece = Plain(c: char) | Image(raw: string, path: string)

  function Tokenize(s: string): seq<Piece>
    decreases |s|
  {
    if s == "" then []
    else
      match MatchAt(s)
      case None => [Plain(s[0])] + Tokenize(s[1..])
      case Some((path, rest)) =>
        RunShortens(Key(0), s);
        [Image(s[..|s| - |rest|], path)] + Tokenize(rest)
  }

  function Raw(p: Piece): string {
    match p
    case Plain(c) => [c]
    case Image(raw, _) => raw
  }

  function Render(pieces: seq<Piece>): string {
    if pieces == [] then "" else Raw(pieces[0]) + Render(pieces[1..])
  }

  lemma {:induction false} RenderTokenize(s: string)
    ensures Render(Tokenize(s)) == s
    decreases |s|
  {
    if s != "" {
      var pieces := Tokenize(s);
      match MatchAt(s) {
        case None =>
          RenderTokenize(s[1..]);
          assert pieces[1..] == Tokenize(s[1..]);
        case Some((path, rest)) =>
          RunShortens(Key(0), s);
          RenderTokenize(rest);
          assert pieces[1..] == Tokenize(rest);
      }
    }
  }

  /** The image is a match by itself. */
  predicate Genuine(p: Piece) {
    p.Image? ==> MatchAt(p.raw) == Some((p.path, ""))
  }

  /** Same text, with an image wherever the other has one. */
  predicate Similar(a: seq<Piece>, b: seq<Piece>) {
    && |a| == |b|
    && forall k :: 0 <= k < |a| ==>
         Genuine(a[k]) && Genuine(b[k]) && (a[k] == b[k] || (a[k].Image? && b[k].Image?))
  }

  lemma ImageShape(p: Piece)
    requires p.Image? && Genuine(p)
    ensures p.raw != "" && p.raw[0] == 'i' && '"' in p.raw
  {
    RunShortens(Key(0), p.raw);
  }

  /** Whether the pattern, once begun, succeeds does not depend on what the images further on say: it
      fails at their first letter, or, inside the quotes, succeeds before they end. */
  lemma {:induction false} StableRun(mode: Mode, a: seq<Piece>, b: seq<Piece>)
    requires Similar(a, b) && mode != Key(0)
    ensures Run(mode, Render(a)).Some? <==> Run(mode, Render(b)).Some?
    decreases |a|
  {
    if a != [] {
      var s, t := Render(a), Render(b);
      assert Genuine(a[0]) && Genuine(b[0]);
      if a[0].Plain? {
        assert s[1..] == Render(a[1..]) && t[1..] == Render(b[1..]);
        assert Similar(a[1..], b[1..]);
        StableRun(Step(mode, a[0].c), a[1..], b[1..]);
        StableStep(mode, s, t);
      } else {
        ImageShape(a[0]);
        ImageShape(b[0]);
        assert s[0] == 'i' && t[0] == 'i';
        assert '"' in s && '"' in t;
        if mode.Quoted? {
          QuotedEnds(mode.path, s);
          QuotedEnds(mode.path, t);
        }
      }
    }
  }

  lemma StableStep(mode: Mode, s: string, t: string)
    requires s != "" && t != "" && s[0] == t[0]
    requires Run(Step(mode, s[0]), s[1..]).Some? <==> Run(Step(mode, s[0]), t[1..]).Some?
    ensures Run(mode, s).Some? <==> Run(mode, t).Some?
  {
  }

  lemma TokenizeImage(p: Piece, rest: string)
    requires p.Image? && Genuine(p)
    ensures Tokenize(p.raw + rest) == [p] + Tokenize(rest)
  {
    ImageShape(p);
    RunExtends(Key(0), p.raw, rest);
    assert "" + rest == rest;
    assert (p.raw + rest)[..|p.raw|] == p.raw;
  }

  lemma TokenizePlain(c: char, rest: string)
    ensures MatchAt([c] + rest).None? ==> Tokenize([c] + rest) == [Plain(c)] + Tokenize(rest)
    ensures MatchAt([c] + rest).Some? ==> Tokenize([c] + rest)[0].Image?
    ensures MatchAt([c] + rest).Some? <==> c == 'i' && Run(Key(1), rest).Some?
  {
    assert ([c] + rest)[1..] == rest;
  }

  /** Replacing images by other images leaves every other match and non-match where it was. */
  lemma {:induction false} Retokenize(a: seq<Piece>, b: seq<Piece>)
    requires Similar(a, b) && Tokenize(Render(a)) == a
    ensures Tokenize(Render(b)) == b
    decreases |a|
  {
    if a != [] {
      var a', b' := a[1..], b[1..];
      assert a == [a[0]] + a' && b == [b[0]] + b';
      assert Similar(a', b');
      assert Genuine(a[0]) && Genuine(b[0]);
      if a[0].Plain? {
        TokenizePlain(a[0].c, Render(a'));
        TokenizePlain(b[0].c, Render(b'));
        StableRun(Key(1), a', b');
      } else {
        TokenizeImage(a[0], Render(a'));
        TokenizeImage(b[0], Render(b'));
      }
      assert Tokenize(Render(a')) == a' by {
        assert a[1..] == a';
      }
      Retokenize(a', b');
    }
  }

  lemma {:induction false} TokensAreGenuine(s: string)
    ensures forall k :: 0 <= k < |Tokenize(s)| ==> Genuine(Tokenize(s)[k])
    decreases |s|
  {
    if s != "" {
      match MatchAt(s) {
        case None => TokensAreGenuine(s[1..]);
        case Some((path, rest)) =>
          RunShortens(Key(0), s);
          MatchAlone(Key(0), s[..|s| - |rest|], rest);
          TokensAreGenuine(rest);
      }
    }
  }

  /** A match that ends where `rest` begins does not need it. */
  lemma {:induction false} MatchAlone(mode: Mode, head: string, rest: string)
    requires Run(mode, head + rest).Some? && Run(mode, head + rest).value.1 == rest
    ensures Run(mode, head) == Some((Run(mode, head + rest).value.0, ""))
    decreases |head|
  {
    var s := head + rest;
    RunShortens(mode, s);
    assert s[1..] == head[1..] + rest && s[0] == head[0];
    if mode.Quoted? && s[0] == '"' {
      assert head[1..] == "";
    } else {
      MatchAlone(Step(mode, s[0]), head[1..], rest);
    }
  }

  // ---- rewriting ----

  /** What a rewriting makes of a path: a new path, or None to leave the match alone. */
  type Rewriting = string -> Option<string>

  function Canonical(path: string): string {
    "imagePath = \"" + path + "\""
  }

  function RewritePiece(f: Rewriting, p: Piece): Piece {
    if p.Image? && f(p.path).Some? then Image(Canonical(f(p.path).value), f(p.path).value) else p
  }

  function RewriteAll(f: Rewriting, pieces: seq<Piece>): (r: seq<Piece>)
    ensures |r| == |pieces| && forall k :: 0 <= k < |pieces| ==> r[k] == RewritePiece(f, pieces[k])
  {
    seq(|pieces|, k requires 0 <= k < |pieces| => RewritePiece(f, pieces[k]))
  }

  function Rewrite(f: Rewriting, content: string): string {
    Render(RewriteAll(f, Tokenize(content)))
  }

  /** The first piece of a template, and the template behind it. */
  function FirstPiece(s: string): (r: (Piece, string))
    requires s != ""
    ensures |r.1| < |s| && Tokenize(s) == [r.0] + Tokenize(r.1)
  {
    match MatchAt(s)
    case None => (Plain(s[0]), s[1..])
    case Some((path, rest)) =>
      RunShortens(Key(0), s);
      (Image(s[..|s| - |rest|], path), rest)
  }

  /** Rewriting goes piece by piece. */
  lemma RewriteFirst(f: Rewriting, s: string)
    requires s != ""
    ensures Rewrite(f, s) == Raw(RewritePiece(f, FirstPiece(s).0)) + Rewrite(f, FirstPiece(s).1)
  {
    var (piece, behind) := FirstPiece(s);
    var all := RewriteAll(f, Tokenize(s));
    assert all[0] == RewritePiece(f, piece) && all[1..] == RewriteAll(f, Tokenize(behind));
  }

  lemma Regroup(a: string, b: string, c: string)
    ensures a + (b + c) == a + b + c
  {
  }

  /** The loop of ReplaceAllStringFunc: the next match is searched behind the last one. */
  method RewriteLoop(f: Rewriting, content: string) returns (out: string)
    ensures out == Rewrite(f, content)
  {
    out := "";
    var rest := content;
    while rest != ""
      invariant out + Rewrite(f, rest) == Rewrite(f, content)
      decreases |rest|
    {
      var (piece, behind) := FirstPiece(rest);
      RewriteFirst(f, rest);
      Regroup(out, Raw(RewritePiece(f, piece)), Rewrite(f, behind));
      out := out + Raw(RewritePiece(f, piece));
      rest := behind;
    }
  }

  /** A rewriting that can be read back: its paths are nonempty and free of quotes. */
  ghost predicate Readable(f: Rewriting, content: string) {
    forall k :: 0 <= k < |Tokenize(content)| && Tokenize(content)[k].Image? ==>
      var r := f(Tokenize(content)[k].path); r.Some? ==> r.value != "" && '"' !in r.value
  }

  lemma {:induction false} QuotedPath(path: string, read: string, rest: string)
    requires '"' !in path && read + path != ""
    ensures Run(Quoted(read), path + "\"" + rest) == Some((read + path, rest))
    decreases |path|
  {
    var s := path + "\"" + rest;
    if path == "" {
      assert s[0] == '"' && s[1..] == rest && read + path == read;
    } else {
      assert s[0] == path[0] && s[1..] == path[1..] + "\"" + rest;
      QuotedPath(path[1..], read + [path[0]], rest);
      assert read + [path[0]] + path[1..] == read + path;
    }
  }

  lemma {:induction false} KeywordRead(k: nat, tail: string)
    requires k < |KEYWORD|
    ensures Run(Key(k), KEYWORD[k..] + tail) == Run(BeforeEquals, tail)
    decreases |KEYWORD| - k
  {
    var s := KEYWORD[k..] + tail;
    assert s[0] == KEYWORD[k];
    if k + 1 == |KEYWORD| {
      assert s[1..] == tail;
    } else {
      assert s[1..] == KEYWORD[k + 1..] + tail;
      KeywordRead(k + 1, tail);
    }
  }

  lemma OneOn(mode: Mode, c: char, rest: string)
    requires mode == BeforeEquals || mode == AfterEquals
    requires c == ' ' || (mode == BeforeEquals && c == '=') || (mode == AfterEquals && c == '"')
    ensures Run(mode, [c] + rest) == Run(Step(mode, c), rest)
  {
    assert ([c] + rest)[1..] == rest;
  }

  lemma EqualsAndQuoteRead(inner: string)
    ensures Run(BeforeEquals, " " + ("=" + (" " + ("\"" + inner)))) == Run(Quoted(""), inner)
  {
    var s1 := "\"" + inner;
    var s2 := " " + s1;
    var s3 := "=" + s2;
    OneOn(AfterEquals, '"', inner);
    OneOn(AfterEquals, ' ', s1);
    OneOn(BeforeEquals, '=', s2);
    OneOn(BeforeEquals, ' ', s3);
  }

  lemma CanonicalIsGenuine(path: string)
    requires path != "" && '"' !in path
    ensures MatchAt(Canonical(path)) == Some((path, ""))
  {
    var inner := path + "\"";
    assert Run(Quoted(""), inner) == Some((path, "")) by {
      QuotedPath(path, "", "");
      assert inner == path + "\"" + "" && "" + path == path;
    }
    EqualsAndQuoteRead(inner);
    var tail := " " + ("=" + (" " + ("\"" + inner)));
    KeywordRead(0, tail);
    assert Canonical(path) == KEYWORD[0..] + tail;
  }

  /** A rewritten template has the same text outside its images, and its images are exactly the old ones
      with their new paths: the rewriting neither makes nor breaks a match. */
  lemma RewriteKeepsText(f: Rewriting, content: string)
    requires Readable(f, content)
    ensures Tokenize(Rewrite(f, content)) == RewriteAll(f, Tokenize(content))
  {
    var a := Tokenize(content);
    var b := RewriteAll(f, a);
    RenderTokenize(content);
    TokensAreGenuine(content);
    forall k | 0 <= k < |a|
      ensures Genuine(b[k])
    {
      if a[k].Image? && f(a[k].path).Some? {
        CanonicalIsGenuine(f(a[k].path).value);
      }
    }
    Retokenize(a, b);
  }

  // ---- paths ----

  function Doubled(p: string): string {
    if p == "" then "" else (if p[0] == '\\' then "\\\\" else [p[0]]) + Doubled(p[1..])
  }

  function Halved(p: string): string {
    if p == "" then ""
    else if |p| >= 2 && p[0] == '\\' && p[1] == '\\' then "\\" + Halved(p[2..])
    else [p[0]] + Halved(p[1..])
  }

  function Backslashed(p: string): string {
    if p == "" then "" else [if p[0] == '/' then '\\' else p[0]] + Backslashed(p[1..])
  }

  function Escape(clean: string -> string, p: string): string {
    Doubled(Backslashed(clean(p)))
  }

  function Unescape(clean: string -> string, p: string): string {
    clean(Halved(TrimSpace(p)))
  }

  lemma {:induction false} HalvedDoubled(p: string)
    ensures Halved(Doubled(p)) == p
  {
    if p != "" {
      HalvedDoubled(p[1..]);
      var d := Doubled(p[1..]);
      if p[0] == '\\' {
        assert ("\\\\" + d)[2..] == d;
      } else {
        assert ([p[0]] + d)[1..] == d;
      }
      assert p == [p[0]] + p[1..];
    }
  }

  lemma {:induction false} BackslashedAlready(p: string)
    requires '/' !in p
    ensures Backslashed(p) == p
  {
    if p != "" {
      BackslashedAlready(p[1..]);
      assert p == [p[0]] + p[1..];
    }
  }

  lemma {:induction false} DoubledEnds(p: string)
    requires p != ""
    ensures var d := Doubled(p);
            d != "" && d[0] == p[0] && d[|d| - 1] == p[|p| - 1] && ('"' in d ==> '"' in p)
  {
    if |p| > 1 {
      DoubledEnds(p[1..]);
      assert p == [p[0]] + p[1..];
    } else {
      assert p[1..] == "";
    }
  }

  /** A cleaned path with backslashes only and without outer spaces; UNC prefixes are included. */
  predicate Tidy(clean: string -> string, p: string) {
    p != "" && clean(p) == p && '/' !in p && !IsSpace(p[0]) && !IsSpace(p[|p| - 1])
  }

  /** Unescaping undoes escaping. */
  lemma UnescapeEscape(clean: string -> string, p: string)
    requires Tidy(clean, p)
    ensures Unescape(clean, Escape(clean, p)) == p
  {
    BackslashedAlready(p);
    HalvedDoubled(p);
    DoubledEnds(p);
    assert TrimSpace(Doubled(p)) == Doubled(p);
  }

  /** Escaping writes every slash, forward or backward, as two backslashes, and all else as it is. */
  lemma {:induction false} DoubledParts(a: string, c: char, b: string)
    ensures Doubled(Backslashed(a + [c] + b)) ==
              Doubled(Backslashed(a)) + (if c == '\\' || c == '/' then "\\\\" else [c]) + Doubled(Backslashed(b))
  {
    var s := a + [c] + b;
    if a == "" {
      assert s[1..] == b;
    } else {
      assert s[0] == a[0] && s[1..] == a[1..] + [c] + b;
      DoubledParts(a[1..], c, b);
    }
  }

  /** Unescaping does not mind outer spaces. */
  lemma UnescapeTrims(clean: string -> string, p: string, q: string)
    requires TrimSpace(p) == TrimSpace(q)
    ensures Unescape(clean, p) == Unescape(clean, q)
  {
  }

  predicate IsSeparator(c: char) {
    c == '\\' || c == '/'
  }

  predicate HasSeparator(p: string) {
    exists k :: 0 <= k < |p| && IsSeparator(p[k])
  }

  function WithoutTrailing(p: string): string {
    if p != "" && IsSeparator(p[|p| - 1]) then WithoutTrailing(p[..|p| - 1]) else p
  }

  function AfterLast(p: string): (r: string)
    ensures !HasSeparator(r)
  {
    if HasSeparator(p) then AfterLast(p[1..]) else p
  }

  function Base(p: string): string {
    if p == "" then "."
    else if WithoutTrailing(p) == "" then "\\"
    else AfterLast(WithoutTrailing(p))
  }

  lemma {:induction false} AfterLastOfJoin(dir: string, name: string)
    requires !HasSeparator(name)
    ensures AfterLast(dir + "\\" + name) == name
  {
    var p := dir + "\\" + name;
    assert IsSeparator(p[|dir|]);
    if dir == "" {
      assert p[1..] == name;
    } else {
      assert p[1..] == dir[1..] + "\\" + name;
      AfterLastOfJoin(dir[1..], name);
    }
  }

  lemma BaseOfJoin(dir: string, name: string)
    requires name != "" && !HasSeparator(name)
    ensures Base(dir + "\\" + name) == name
  {
    var p := dir + "\\" + name;
    assert p[|p| - 1] == name[|name| - 1];
    assert !IsSeparator(name[|name| - 1]);
    AfterLastOfJoin(dir, name);
  }

  // ---- pushing and pulling ----

  /** The file name of the logo that a template's path denotes. */
  function LogoName(clean: string -> string, path: string): string {
    Base(Unescape(clean, path))
  }

  /** Push: a logo that exists locally is referred to in the network folder. */
  function PushPath(clean: string -> string, networkLogos: string, localHas: string -> bool): Rewriting {
    path =>
      var local := clean(Unescape(clean, path));
      if localHas(local) then Some(Escape(clean, networkLogos + "\\" + Base(local))) else None
  }

  /** Pull: a logo present on the network is referred to in the local folder, others stay there. */
  function PullPath(clean: string -> string, networkLogos: string, localLogos: string,
                    onNetwork: string -> bool): Rewriting {
    path =>
      var name := LogoName(clean, path);
      if name == "" || name == "." then None
      else if onNetwork(name) then Some(Escape(clean, localLogos + "\\" + name))
      else Some(Escape(clean, networkLogos + "\\" + name))
  }

  /** A logo name that makes a tidy path in a folder. */
  predicate GoodIn(clean: string -> string, dir: string, name: string) {
    Tidy(clean, dir + "\\" + name) && '"' !in dir + "\\" + name && name != "" && !HasSeparator(name)
  }

  /** Referring to a logo in a folder keeps its name and can be read back. */
  lemma LogoNameKept(clean: string -> string, dir: string, name: string)
    requires GoodIn(clean, dir, name)
    ensures var path := Escape(clean, dir + "\\" + name);
            LogoName(clean, path) == name && path != "" && '"' !in path
  {
    UnescapeEscape(clean, dir + "\\" + name);
    BackslashedAlready(dir + "\\" + name);
    DoubledEnds(dir + "\\" + name);
    BaseOfJoin(dir, name);
  }

  /** Every logo a template names makes a tidy path in each of these folders. */
  ghost predicate GoodLogos(clean: string -> string, content: string, dirs: set<string>) {
    && (forall p :: clean(clean(p)) == clean(p))
    && forall k, d :: 0 <= k < |Tokenize(content)| && Tokenize(content)[k].Image? && d in dirs ==>
         GoodIn(clean, d, LogoName(clean, Tokenize(content)[k].path))
  }

  /** Two templates with the same text, the same images in the same places, and the same logo names. */
  ghost predicate SameLogos(clean: string -> string, a: string, b: string) {
    var s, t := Tokenize(a), Tokenize(b);
    && |s| == |t|
    && forall k :: 0 <= k < |s| ==>
         if s[k].Plain? then t[k] == s[k]
         else t[k].Image? && LogoName(clean, t[k].path) == LogoName(clean, s[k].path)
  }

  /** A rewriting that refers to every logo it changes in one of the folders. */
  ghost predicate Relocates(clean: string -> string, f: Rewriting, content: string, dirs: set<string>) {
    forall k :: 0 <= k < |Tokenize(content)| && Tokenize(content)[k].Image? ==>
      var path := Tokenize(content)[k].path;
      f(path).Some? ==> exists d :: d in dirs && f(path).value == Escape(clean, d + "\\" + LogoName(clean, path))
  }

  lemma RelocatingKeepsLogos(clean: string -> string, f: Rewriting, content: string, dirs: set<string>)
    requires GoodLogos(clean, content, dirs) && Relocates(clean, f, content, dirs)
    ensures SameLogos(clean, content, Rewrite(f, content))
  {
    var s := Tokenize(content);
    forall k | 0 <= k < |s| && s[k].Image? && f(s[k].path).Some?
      ensures f(s[k].path).value != "" && '"' !in f(s[k].path).value
      ensures LogoName(clean, f(s[k].path).value) == LogoName(clean, s[k].path)
    {
      var d :| d in dirs && f(s[k].path).value == Escape(clean, d + "\\" + LogoName(clean, s[k].path));
      LogoNameKept(clean, d, LogoName(clean, s[k].path));
    }
    RewriteKeepsText(f, content);
  }

  /** Pushing a template on one machine and pulling it on another, whatever logos each finds, changes
      nothing outside the image paths and keeps the sequence of logo names. */
  lemma PushThenPullKeepsLogos(clean: string -> string, content: string, networkLogos: string, localLogos: string,
                               localHas: string -> bool, onNetwork: string -> bool)
    requires GoodLogos(clean, content, {networkLogos, localLogos})
    ensures var pushed := Rewrite(PushPath(clean, networkLogos, localHas), content);
            var pulled := Rewrite(PullPath(clean, networkLogos, localLogos, onNetwork), pushed);
            SameLogos(clean, content, pushed) && SameLogos(clean, pushed, pulled) && SameLogos(clean, content, pulled)
  {
    var dirs := {networkLogos, localLogos};
    var push, pull := PushPath(clean, networkLogos, localHas), PullPath(clean, networkLogos, localLogos, onNetwork);
    var pushed := Rewrite(push, content);
    assert Relocates(clean, push, content, dirs);
    RelocatingKeepsLogos(clean, push, content, dirs);
    assert GoodLogos(clean, pushed, dirs);
    assert Relocates(clean, pull, pushed, dirs);
    RelocatingKeepsLogos(clean, pull, pushed, dirs);
  }

  // ---- which folder is referred to ----

  /** What a reference in a template denotes. */
  function Denotes(clean: string -> string, p: Piece): string
    requires p.Image?
  {
    Unescape(clean, p.path)
  }

  /** A pulled reference denotes the logo in the local folder if the network has it, and else in the network's. */
  lemma PullRefers(clean: string -> string, networkLogos: string, localLogos: string, onNetwork: string -> bool,
                   path: string)
    requires var name := LogoName(clean, path);
             GoodIn(clean, networkLogos, name) && GoodIn(clean, localLogos, name) && name != "."
    ensures var name, f := LogoName(clean, path), PullPath(clean, networkLogos, localLogos, onNetwork);
            && f(path).Some?
            && Unescape(clean, f(path).value) == (if onNetwork(name) then localLogos else networkLogos) + "\\" + name
  {
    var name := LogoName(clean, path);
    UnescapeEscape(clean, localLogos + "\\" + name);
    UnescapeEscape(clean, networkLogos + "\\" + name);
  }

  /** A reference is pushed exactly if its logo exists here, and then denotes it in the network folder. */
  lemma PushRefers(clean: string -> string, networkLogos: string, localHas: string -> bool, path: string)
    requires (forall p :: clean(clean(p)) == clean(p)) && GoodIn(clean, networkLogos, LogoName(clean, path))
    ensures var f := PushPath(clean, networkLogos, localHas);
            && (f(path).Some? <==> localHas(Unescape(clean, path)))
            && (f(path).Some? ==> Unescape(clean, f(path).value) == networkLogos + "\\" + LogoName(clean, path))
  {
    UnescapeEscape(clean, networkLogos + "\\" + LogoName(clean, path));
  }

  lemma NothingIsLeftAlone(clean: string -> string, networkLogos: string, localLogos: string,
                           onNetwork: string -> bool, path: string)
    ensures PullPath(clean, networkLogos, localLogos, onNetwork)(path).None? <==>
              LogoName(clean, path) == "" || LogoName(clean, path) == "."
  {
  }

  /** Every reference of a pulled template denotes its logo in the folder that has it, and all else is as on
      the network. */
  lemma PulledTemplate(clean: string -> string, content: string, networkLogos: string, localLogos: string,
                       onNetwork: string -> bool)
    requires GoodLogos(clean, content, {networkLogos, localLogos})
    requires forall k :: 0 <= k < |Tokenize(content)| && Tokenize(content)[k].Image? ==>
               LogoName(clean, Tokenize(content)[k].path) != "."
    ensures var f := PullPath(clean, networkLogos, localLogos, onNetwork);
            var s, t := Tokenize(content), Tokenize(Rewrite(f, content));
            && |t| == |s|
            && forall k :: 0 <= k < |s| ==>
                 if s[k].Plain? then t[k] == s[k]
                 else
                   var name := LogoName(clean, s[k].path);
                   var folder := if onNetwork(name) then localLogos else networkLogos;
                   t[k].Image? && Denotes(clean, t[k]) == folder + "\\" + name
  {
    var f, s := PullPath(clean, networkLogos, localLogos, onNetwork), Tokenize(content);
    forall k | 0 <= k < |s| && s[k].Image?
      ensures f(s[k].path).Some? && f(s[k].path).value != "" && '"' !in f(s[k].path).value
      ensures var name := LogoName(clean, s[k].path);
              var folder := if onNetwork(name) then localLogos else networkLogos;
              Unescape(clean, f(s[k].path).value) == folder + "\\" + name
    {
      var name := LogoName(clean, s[k].path);
      var dirs := {networkLogos, localLogos};
      assert networkLogos in dirs && localLogos in dirs;
      assert GoodIn(clean, networkLogos, name) && GoodIn(clean, localLogos, name);
      PullRefers(clean, networkLogos, localLogos, onNetwork, s[k].path);
      LogoNameKept(clean, networkLogos, name);
      LogoNameKept(clean, localLogos, name);
    }
    RewriteKeepsText(f, content);
  }

  /** Every reference of a pushed template whose logo exists here denotes it in the network folder, and all
      else is as it was. */
  lemma PushedTemplate(clean: string -> string, content: string, networkLogos: string, localHas: string -> bool)
    requires GoodLogos(clean, content, {networkLogos})
    ensures var s, t := Tokenize(content), Tokenize(Rewrite(PushPath(clean, networkLogos, localHas), content));
            && |t| == |s|
            && forall k :: 0 <= k < |s| ==>
                 if s[k].Image? && localHas(Denotes(clean, s[k]))
                 then t[k].Image? && Denotes(clean, t[k]) == networkLogos + "\\" + LogoName(clean, s[k].path)
                 else t[k] == s[k]
  {
    var f, s, dirs := PushPath(clean, networkLogos, localHas), Tokenize(content), {networkLogos};
    forall k | 0 <= k < |s| && s[k].Image?
      ensures f(s[k].path).Some? <==> localHas(Denotes(clean, s[k]))
      ensures f(s[k].path).Some? ==>
                && f(s[k].path).value != "" && '"' !in f(s[k].path).value
                && Unescape(clean, f(s[k].path).value) == networkLogos + "\\" + LogoName(clean, s[k].path)
    {
      var name := LogoName(clean, s[k].path);
      assert networkLogos in dirs && GoodIn(clean, networkLogos, name);
      PushRefers(clean, networkLogos, localHas, s[k].path);
      LogoNameKept(clean, networkLogos, name);
    }
    RewriteKeepsText(f, content);
  }
}
