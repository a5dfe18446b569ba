/**
 Folder names as glob patterns. Discovery hands the path of the catalog folder itself to the glob, where
 a bracket opens a character class. Windows allows brackets in names, but no stars and question marks.
 */
module PathGlob {
  import opened Text

  /** One character of a pattern, or a class of characters between pairs of bounds. */
  datatype Piece = Literal(c: char) | Class(negated: bool, ranges: seq<(char, char)>)

  /** A bound of a class: anything but a dash or a closing bracket, and not the last character. */
  function Bound(s: string): (r: Option<(char, string)>)
    ensures r.Some? ==> r.value.1 != "" && |r.value.1| == |s| - 1
  {
    if |s| <= 1 || s[0] == '-' || s[0] == ']' then None else Some((s[0], s[1..]))
  }

  /** The rest of a class after its opening, up to the closing bracket. */
  function ParseRanges(s: string, done: seq<(char, char)>): (r: Option<(seq<(char, char)>, string)>)
    ensures r.Some? ==> |r.value.1| < |s| && (done == [] ==> |r.value.1| + 1 < |s|)
    decreases |s|
  {
    if s != "" && s[0] == ']' && done != [] then Some((done, s[1..]))
    else
      match Bound(s)
      case None => None
      case Some((lo, rest)) =>
        if rest[0] != '-' then ParseRanges(rest, done + [(lo, lo)])
        else
          match Bound(rest[1..])
          case None => None
          case Some((hi, rest')) => ParseRanges(rest', done + [(lo, hi)])
  }

  /** The pieces of a pattern without stars; None when a class is malformed. */
  function Parse(s: string): Option<seq<Piece>>
    decreases |s|
  {
    if s == "" then Some([])
    else if s[0] != '[' then
      match Parse(s[1..])
      case None => None
      case Some(pieces) => Some([Literal(s[0])] + pieces)
    else
      var negated := |s| > 1 && s[1] == '^';
      match ParseRanges(if negated then s[2..] else s[1..], [])
      case None => None
      case Some((ranges, rest)) =>
        match Parse(rest)
        case None => None
        case Some(pieces) => Some([Class(negated, ranges)] + pieces)
  }

  predicate MatchesPiece(p: Piece, c: char) {
    match p
    case Literal(d) => c == d
    case Class(negated, ranges) => (exists r :: r in ranges && r.0 <= c <= r.1) != negated
  }

  /** A name matches piece by piece, so it is as long as the pattern has pieces. */
  predicate MatchesName(pattern: string, name: string) {
    match Parse(pattern)
    case None => false
    case Some(pieces) => |pieces| == |name| && forall k :: 0 <= k < |name| ==> MatchesPiece(pieces[k], name[k])
  }

  /** A class takes three characters at least and matches one. */
  lemma {:induction false} ClassesShrink(s: string)
    requires Parse(s).Some?
    ensures |Parse(s).value| <= |s| && ('[' in s ==> |Parse(s).value| < |s|)
    decreases |s|
  {
    if s != "" {
      if s[0] != '[' {
        ClassesShrink(s[1..]);
      } else {
        var negated := |s| > 1 && s[1] == '^';
        var rest := ParseRanges(if negated then s[2..] else s[1..], []).value.1;
        ClassesShrink(rest);
      }
    }
  }

  lemma {:induction false} ParsesLiterally(s: string)
    requires '[' !in s
    ensures Parse(s).Some? && |Parse(s).value| == |s|
    ensures forall k :: 0 <= k < |s| ==> Parse(s).value[k] == Literal(s[k])
    decreases |s|
  {
    if s != "" {
      ParsesLiterally(s[1..]);
    }
  }

  /** A name is its own pattern exactly when it has no bracket, and then it matches nothing else. */
  lemma SelfMatchIff(pattern: string, name: string)
    ensures MatchesName(pattern, pattern) <==> '[' !in pattern
    ensures '[' !in pattern ==> (MatchesName(pattern, name) <==> name == pattern)
    ensures '[' in pattern && MatchesName(pattern, name) ==> |name| < |pattern|
  {
    if '[' in pattern {
      if Parse(pattern).Some? {
        ClassesShrink(pattern);
      }
    } else {
      ParsesLiterally(pattern);
    }
  }

  // ---- what a class matches ----

  function Literals(s: string): (pieces: seq<Piece>)
    ensures |pieces| == |s| && forall k :: 0 <= k < |s| ==> pieces[k] == Literal(s[k])
  {
    seq(|s|, k requires 0 <= k < |s| => Literal(s[k]))
  }

  function Singles(s: string): (ranges: seq<(char, char)>)
    ensures |ranges| == |s| && forall k :: 0 <= k < |s| ==> ranges[k] == (s[k], s[k])
  {
    seq(|s|, k requires 0 <= k < |s| => (s[k], s[k]))
  }

  predicate Plain(inside: string) {
    inside != "" && inside[0] != '^' && forall c :: c in inside ==> c != '-' && c != ']'
  }

  /** Characters listed one by one, up to the closing bracket. */
  lemma {:induction false} ListedRanges(inside: string, rest: string, done: seq<(char, char)>)
    requires (inside != "" || done != []) && forall c :: c in inside ==> c != '-' && c != ']'
    ensures ParseRanges(inside + ("]" + rest), done) == Some((done + Singles(inside), rest))
    decreases |inside|
  {
    var s := inside + ("]" + rest);
    if inside == "" {
      assert s == "]" + rest && s[1..] == rest && done + Singles(inside) == done;
    } else {
      var next := done + [(inside[0], inside[0])];
      assert s[1..] == inside[1..] + ("]" + rest);
      assert inside[0] in inside && (|inside| > 1 ==> inside[1] in inside);
      assert forall c :: c in inside[1..] ==> c in inside;
      ListedRanges(inside[1..], rest, next);
      assert next + Singles(inside[1..]) == done + Singles(inside);
    }
  }

  lemma {:induction false} ParseHead(head: string, rest: string)
    requires '[' !in head
    ensures Parse(rest).None? ==> Parse(head + rest).None?
    ensures Parse(rest).Some? ==> Parse(head + rest) == Some(Literals(head) + Parse(rest).value)
  {
    if head == "" {
      assert head + rest == rest;
      assert Parse(rest).Some? ==> Literals(head) + Parse(rest).value == Parse(rest).value;
    } else {
      assert (head + rest)[1..] == head[1..] + rest && (head + rest)[0] == head[0];
      ParseHead(head[1..], rest);
      assert head[0] in head && forall c :: c in head[1..] ==> c in head;
      assert [Literal(head[0])] + Literals(head[1..]) == Literals(head);
      assert Parse(rest).Some? ==>
          [Literal(head[0])] + (Literals(head[1..]) + Parse(rest).value) == Literals(head) + Parse(rest).value;
    }
  }

  lemma ParseTail(tail: string)
    requires '[' !in tail
    ensures Parse(tail) == Some(Literals(tail))
  {
    ParseHead(tail, "");
    assert tail + "" == tail && Literals(tail) + [] == Literals(tail);
  }

  /** A pattern with one class, between plain text. */
  function OneClass(head: string, negated: bool, inside: string, tail: string): string {
    head + ((if negated then "[^" else "[") + (inside + ("]" + tail)))
  }

  lemma ParseClass(head: string, negated: bool, inside: string, tail: string, ranges: seq<(char, char)>)
    requires '[' !in head && '[' !in tail && inside != "" && inside[0] != '^'
    requires ParseRanges(inside + ("]" + tail), []) == Some((ranges, tail))
    ensures Parse(OneClass(head, negated, inside, tail)) ==
            Some(Literals(head) + [Class(negated, ranges)] + Literals(tail))
  {
    var body := inside + ("]" + tail);
    var s := (if negated then "[^" else "[") + body;
    assert body[0] == inside[0] && s[if negated then 2 else 1..] == body;
    ParseTail(tail);
    assert Parse(s) == Some([Class(negated, ranges)] + Literals(tail));
    ParseHead(head, s);
    assert Literals(head) + ([Class(negated, ranges)] + Literals(tail))
        == Literals(head) + [Class(negated, ranges)] + Literals(tail);
  }

  lemma OnePieceBetween(pattern: string, head: string, piece: Piece, tail: string, name: string)
    requires Parse(pattern) == Some(Literals(head) + [piece] + Literals(tail))
    ensures MatchesName(pattern, name) <==> exists c :: MatchesPiece(piece, c) && name == head + [c] + tail
  {
    var pieces, n := Literals(head) + [piece] + Literals(tail), |head|;
    if MatchesName(pattern, name) {
      forall k | 0 <= k < |name|
        ensures name[k] == (head + [name[n]] + tail)[k]
      {
        assert MatchesPiece(pieces[k], name[k]);
      }
      assert MatchesPiece(pieces[n], name[n]) && name == head + [name[n]] + tail;
    }
  }

  /** A class of characters matches exactly the names with one of them in its place, and its negation those
      with another. */
  lemma ClassMatchIff(head: string, negated: bool, inside: string, tail: string, name: string)
    requires '[' !in head && '[' !in tail && Plain(inside)
    ensures MatchesName(OneClass(head, negated, inside, tail), name) <==>
            exists c :: (c in inside <==> !negated) && name == head + [c] + tail
  {
    ListedRanges(inside, tail, []);
    assert [] + Singles(inside) == Singles(inside);
    ParseClass(head, negated, inside, tail, Singles(inside));
    OnePieceBetween(OneClass(head, negated, inside, tail), head, Class(negated, Singles(inside)), tail, name);
    forall c: char
      ensures MatchesPiece(Class(negated, Singles(inside)), c) <==> (c in inside <==> !negated)
    {
      if c in inside {
        var k :| 0 <= k < |inside| && inside[k] == c;
        assert Singles(inside)[k] == (c, c);
      }
    }
  }

  /** A range matches exactly the names with a character between its bounds in its place. */
  lemma RangeMatchIff(head: string, lo: char, hi: char, tail: string, name: string)
    requires '[' !in head && '[' !in tail && Plain([lo, hi])
    ensures MatchesName(OneClass(head, false, [lo, '-', hi], tail), name) <==>
            exists c :: lo <= c <= hi && name == head + [c] + tail
  {
    var body := [lo, '-', hi] + ("]" + tail);
    assert lo in [lo, hi] && hi in [lo, hi];
    assert body[1..][1..] == [hi] + ("]" + tail) && body[1..][1..][1..] == "]" + tail && ("]" + tail)[1..] == tail;
    assert ParseRanges("]" + tail, [(lo, hi)]) == Some(([(lo, hi)], tail));
    assert [] + [(lo, hi)] == [(lo, hi)];
    assert ParseRanges(body, []) == ParseRanges("]" + tail, [(lo, hi)]);
    ParseClass(head, false, [lo, '-', hi], tail, [(lo, hi)]);
    OnePieceBetween(OneClass(head, false, [lo, '-', hi], tail), head, Class(false, [(lo, hi)]), tail, name);
    assert forall c: char :: MatchesPiece(Class(false, [(lo, hi)]), c) <==> lo <= c <= hi by {
      assert (lo, hi) in [(lo, hi)];
    }
  }

  // ---- paths ----

  predicate Bracketed(path: seq<string>) {
    exists k :: 0 <= k < |path| && '[' in path[k]
  }

  predicate WellFormed(path: seq<string>) {
    forall k :: 0 <= k < |path| ==> Parse(path[k]).Some?
  }

  /** The folder `dir` is one that the pattern `path` leads to. */
  predicate LeadsTo(path: seq<string>, dir: seq<string>) {
    |dir| == |path| && forall k :: 0 <= k < |path| ==> MatchesName(path[k], dir[k])
  }

  /** A path leads to itself alone without brackets, and otherwise to other folders or none. */
  lemma LeadsToItselfIff(path: seq<string>, dir: seq<string>)
    ensures !Bracketed(path) ==> (LeadsTo(path, dir) <==> dir == path)
    ensures Bracketed(path) ==> !LeadsTo(path, path)
  {
    if Bracketed(path) {
      var k :| 0 <= k < |path| && '[' in path[k];
      SelfMatchIff(path[k], path[k]);
    } else {
      forall k | 0 <= k < |path| && k < |dir|
        ensures MatchesName(path[k], dir[k]) <==> dir[k] == path[k]
      {
        SelfMatchIff(path[k], dir[k]);
      }
    }
  }
}
