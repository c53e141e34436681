/** Globs of the living-docs index: the regular expression a glob is compiled to, and what that expression matches. */
module Globs {
  import opened JsStrings

  /** The pieces of a compiled expression: `.*`, `[^/]*`, `[^/]` and an escaped literal. */
  datatype Piece = AnyRun | SegmentRun | SegmentChar | Literal(c: char)

  /** What `.` does not match. */
  predicate IsLineTerminator(c: char) {
    c == '\n' || c == '\r' || c == '\U{2028}' || c == '\U{2029}'
  }

  /** The pieces of a glob: a double star takes the slash behind it along. */
  function Compile(glob: string): seq<Piece>
    decreases |glob|
  {
    if glob == "" then []
    else if StartsWith(glob, "**") then
      [AnyRun] + Compile(if |glob| > 2 && glob[2] == '/' then glob[3..] else glob[2..])
    else [PieceOf(glob[0])] + Compile(glob[1..])
  }

  function PieceOf(c: char): Piece {
    if c == '*' then SegmentRun else if c == '?' then SegmentChar else Literal(c)
  }

  /** What the loop's next step adds. */
  lemma CompileFrom(glob: string, i: nat)
    requires i < |glob|
    ensures
      if glob[i] == '*' && i + 1 < |glob| && glob[i + 1] == '*' then
        Compile(glob[i..]) == [AnyRun] + Compile(glob[if i + 2 < |glob| && glob[i + 2] == '/' then i + 3 else i + 2..])
      else
        Compile(glob[i..]) == [PieceOf(glob[i])] + Compile(glob[i + 1..])
  {
    var rest := glob[i..];
    assert rest[1..] == glob[i + 1..];
    if |rest| > 1 {
      assert rest[..2] == [glob[i], glob[i + 1]] && rest[2..] == glob[i + 2..];
      assert "**" == ['*', '*'];
      if |rest| > 2 { assert rest[3..] == glob[i + 3..]; }
    }
  }

  method GlobToPieces(glob: string) returns (pattern: seq<Piece>)
    ensures pattern == Compile(glob)
  {
    hide Compile;
    pattern := [];
    var i := 0;
    assert glob[0..] == glob && pattern + Compile(glob) == Compile(glob);
    while i < |glob|
      invariant 0 <= i <= |glob|
      invariant pattern + Compile(glob[i..]) == Compile(glob)
    {
      var ch := glob[i];
      CompileFrom(glob, i);
      if ch == '*' && i + 1 < |glob| && glob[i + 1] == '*' {
        pattern := pattern + [AnyRun];
        i := i + 2;
        if i < |glob| && glob[i] == '/' { i := i + 1; }
      } else {
        pattern := pattern + [PieceOf(ch)];
        i := i + 1;
      }
    }
    assert glob[i..] == "";
    EmptyCompiles();
  }

  lemma EmptyCompiles()
    ensures Compile("") == []
  {}

  predicate TakesOne(p: Piece, c: char) {
    match p
    case AnyRun => !IsLineTerminator(c)
    case SegmentRun => c != '/'
    case SegmentChar => c != '/'
    case Literal(l) => c == l
  }

  predicate IsRun(p: Piece) {
    p.AnyRun? || p.SegmentRun?
  }

  /** The anchored match, by backtracking. */
  predicate Matches(pieces: seq<Piece>, s: string)
    decreases |pieces|, |s|
  {
    if pieces == [] then s == ""
    else if IsRun(pieces[0]) then
      Matches(pieces[1..], s) || (s != "" && TakesOne(pieces[0], s[0]) && Matches(pieces, s[1..]))
    else
      s != "" && TakesOne(pieces[0], s[0]) && Matches(pieces[1..], s[1..])
  }

  predicate MatchesGlob(glob: string, path: string) {
    Matches(Compile(glob), path)
  }

  /** One piece taken alone: a run takes any number of its characters, anything else exactly one. */
  predicate Accepts(p: Piece, word: string) {
    (IsRun(p) || |word| == 1) && forall i :: 0 <= i < |word| ==> TakesOne(p, word[i])
  }

  function Concatenated(words: seq<string>): string {
    if words == [] then "" else words[0] + Concatenated(words[1..])
  }

  /** A way to cut `s` into one word for each piece. */
  predicate IsCut(pieces: seq<Piece>, s: string, words: seq<string>) {
    |words| == |pieces| && Concatenated(words) == s && forall i :: 0 <= i < |pieces| ==> Accepts(pieces[i], words[i])
  }

  /** The backtracking match succeeds exactly on the strings that can be cut into one accepted word for each piece. */
  lemma MatchesIffCut(pieces: seq<Piece>, s: string)
    ensures Matches(pieces, s) <==> exists words :: IsCut(pieces, s, words)
  {
    if Matches(pieces, s) {
      var words := CutOfMatch(pieces, s);
    }
    if words :| IsCut(pieces, s, words) {
      CutIsMatch(pieces, s, words);
    }
  }

  lemma {:induction false} CutOfMatch(pieces: seq<Piece>, s: string) returns (words: seq<string>)
    requires Matches(pieces, s)
    ensures IsCut(pieces, s, words)
    decreases |pieces|, |s|
  {
    if pieces == [] {
      words := [];
    } else if IsRun(pieces[0]) && Matches(pieces[1..], s) {
      var rest := CutOfMatch(pieces[1..], s);
      words := [""] + rest;
      assert words[1..] == rest;
    } else if IsRun(pieces[0]) {
      var rest := CutOfMatch(pieces, s[1..]);
      words := [[s[0]] + rest[0]] + rest[1..];
      assert ([s[0]] + rest[0]) + Concatenated(rest[1..]) == [s[0]] + Concatenated(rest);
      assert [s[0]] + s[1..] == s;
    } else {
      var rest := CutOfMatch(pieces[1..], s[1..]);
      words := [[s[0]]] + rest;
      assert words[1..] == rest;
      assert [s[0]] + s[1..] == s;
    }
  }

  lemma {:induction false} CutIsMatch(pieces: seq<Piece>, s: string, words: seq<string>)
    requires IsCut(pieces, s, words)
    ensures Matches(pieces, s)
    decreases |pieces|, |s|
  {
    if pieces != [] {
      var w := words[0];
      if w == "" {
        assert s == Concatenated(words[1..]);
        CutIsMatch(pieces[1..], s, words[1..]);
      } else {
        assert s == w + Concatenated(words[1..]);
        assert s[0] == w[0] && s[1..] == w[1..] + Concatenated(words[1..]);
        if IsRun(pieces[0]) {
          var shorter := [w[1..]] + words[1..];
          assert shorter[1..] == words[1..];
          CutIsMatch(pieces, s[1..], shorter);
        } else {
          assert w[1..] == "";
          assert s[1..] == Concatenated(words[1..]);
          CutIsMatch(pieces[1..], s[1..], words[1..]);
        }
      }
    }
  }

  // ---------------------------------------------------------------- literal fronts

  predicate HasWildcard(s: string) {
    '*' in s || '?' in s
  }

  /** Everything before a glob's first wildcard is literal, so a path that matches begins with it. */
  lemma {:induction false} LiteralFront(front: string, rest: string, path: string)
    requires !HasWildcard(front)
    requires MatchesGlob(front + rest, path)
    ensures StartsWith(path, front) && MatchesGlob(rest, path[|front|..])
    decreases |front|
  {
    if front == "" {
      assert front + rest == rest && path[0..] == path;
    } else {
      var glob := front + rest;
      assert glob[0] == front[0] && glob[1..] == front[1..] + rest;
      assert !StartsWith(glob, "**") by { assert |glob| > 1 ==> glob[..2][0] == glob[0]; }
      assert Compile(glob) == [Literal(front[0])] + Compile(glob[1..]);
      assert Compile(glob)[1..] == Compile(glob[1..]);
      LiteralFront(front[1..], rest, path[1..]);
      assert path[1..][|front| - 1..] == path[|front|..];
      assert path[..|front|] == [path[0]] + path[1..][..|front| - 1];
      assert front == [front[0]] + front[1..];
    }
  }

  /** A glob without a wildcard matches itself and nothing else. */
  lemma LiteralGlob(glob: string, path: string)
    requires !HasWildcard(glob)
    ensures MatchesGlob(glob, path) <==> path == glob
  {
    assert glob + "" == glob;
    if MatchesGlob(glob, path) {
      LiteralFront(glob, "", path);
      assert path == path[..|glob|] + path[|glob|..];
    }
    LiteralGlobMatchesItself(glob);
  }

  lemma {:induction false} LiteralGlobMatchesItself(glob: string)
    requires !HasWildcard(glob)
    ensures MatchesGlob(glob, glob)
    decreases |glob|
  {
    if glob != "" {
      assert !StartsWith(glob, "**") by { assert |glob| > 1 ==> glob[..2][0] == glob[0]; }
      assert Compile(glob)[1..] == Compile(glob[1..]);
      LiteralGlobMatchesItself(glob[1..]);
    }
  }

  // ---------------------------------------------------------------- two globs and one path

  /** Some character is taken by both pieces. */
  predicate ShareCharacter(p: Piece, q: Piece) {
    if p.Literal? then TakesOne(q, p.c) else q.Literal? ==> TakesOne(p, q.c)
  }

  lemma CommonCharacter(p: Piece, q: Piece)
    ensures ShareCharacter(p, q) <==> exists c :: TakesOne(p, c) && TakesOne(q, c)
  {
    if p.Literal? {
      assert TakesOne(p, p.c);
    } else if q.Literal? {
      assert TakesOne(q, q.c);
    } else {
      assert TakesOne(p, 'a') && TakesOne(q, 'a');
    }
  }

  /** Whether two patterns can match one string: a run is dropped or takes the other's piece, and single pieces go together. */
  predicate Meet(p: seq<Piece>, q: seq<Piece>)
    decreases |p| + |q|
  {
    || (p == [] && q == [])
    || (p != [] && IsRun(p[0]) && Meet(p[1..], q))
    || (q != [] && IsRun(q[0]) && Meet(p, q[1..]))
    || (p != [] && q != [] && ShareCharacter(p[0], q[0])
        && if IsRun(p[0]) then Meet(p, q[1..]) else if IsRun(q[0]) then Meet(p[1..], q) else Meet(p[1..], q[1..]))
  }

  lemma {:induction false} MeetOfCommon(p: seq<Piece>, q: seq<Piece>, s: string)
    requires Matches(p, s) && Matches(q, s)
    ensures Meet(p, q)
    decreases |p| + |q|, |s|
  {
    if p != [] && IsRun(p[0]) && Matches(p[1..], s) {
      MeetOfCommon(p[1..], q, s);
    } else if q != [] && IsRun(q[0]) && Matches(q[1..], s) {
      MeetOfCommon(p, q[1..], s);
    } else if s != "" {
      assert TakesOne(p[0], s[0]) && TakesOne(q[0], s[0]);
      CommonCharacter(p[0], q[0]);
      hide TakesOne, ShareCharacter;
      MeetOfCommon(if IsRun(p[0]) then p else p[1..], if IsRun(q[0]) then q else q[1..], s[1..]);
    }
  }

  lemma {:induction false} CommonOfMeet(p: seq<Piece>, q: seq<Piece>) returns (s: string)
    requires Meet(p, q)
    ensures Matches(p, s) && Matches(q, s)
    decreases |p| + |q|
  {
    if p == [] && q == [] {
      s := "";
    } else if p != [] && IsRun(p[0]) && Meet(p[1..], q) {
      s := CommonOfMeet(p[1..], q);
    } else if q != [] && IsRun(q[0]) && Meet(p, q[1..]) {
      s := CommonOfMeet(p, q[1..]);
    } else {
      CommonCharacter(p[0], q[0]);
      var c :| TakesOne(p[0], c) && TakesOne(q[0], c);
      hide TakesOne, ShareCharacter;
      var rest := CommonOfMeet(if IsRun(p[0]) then p else p[1..], if IsRun(q[0]) && !IsRun(p[0]) then q else q[1..]);
      s := [c] + rest;
      assert s[1..] == rest;
    }
  }

  /** Two globs meet if and only if some path is matched by both. */
  lemma MeetIff(a: string, b: string)
    ensures Meet(Compile(a), Compile(b)) <==> exists path :: MatchesGlob(a, path) && MatchesGlob(b, path)
  {
    hide Compile, Meet, Matches;
    if Meet(Compile(a), Compile(b)) {
      var path := CommonOfMeet(Compile(a), Compile(b));
      assert MatchesGlob(a, path) && MatchesGlob(b, path);
    }
    if path :| MatchesGlob(a, path) && MatchesGlob(b, path) { MeetOfCommon(Compile(a), Compile(b), path); }
  }
}
