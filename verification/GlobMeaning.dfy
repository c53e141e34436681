/** What each wildcard of a glob stands for, said of globs and paths alone. */
module GlobMeaning {
  import opened JsStrings
  import opened Globs

  /** No star at the end of the text can join one behind it. */
  predicate IsClosed(glob: string) {
    glob == "" || Last(glob) != '*'
  }

  lemma TwoStars(glob: string)
    ensures StartsWith(glob, "**") <==> |glob| >= 2 && glob[0] == '*' && glob[1] == '*'
  {
    if |glob| >= 2 { assert glob[..2] == [glob[0], glob[1]]; }
  }

  /** How many characters of the glob its first piece is compiled from. */
  function TokenLength(glob: string): (n: nat)
    requires glob != ""
    ensures 1 <= n <= |glob|
  {
    if |glob| >= 2 && glob[0] == '*' && glob[1] == '*' then if |glob| > 2 && glob[2] == '/' then 3 else 2 else 1
  }

  function TokenPiece(glob: string): Piece
    requires glob != ""
  {
    if TokenLength(glob) > 1 then AnyRun else PieceOf(glob[0])
  }

  lemma CompileStep(glob: string)
    requires glob != ""
    ensures Compile(glob) == [TokenPiece(glob)] + Compile(glob[TokenLength(glob)..])
  {
    TwoStars(glob);
  }

  lemma TokenOfConcat(front: string, back: string)
    requires IsClosed(front) && front != ""
    ensures TokenLength(front + back) == TokenLength(front) && TokenPiece(front + back) == TokenPiece(front)
    ensures IsClosed(front[TokenLength(front)..])
  {
    var glob := front + back;
    assert |front| >= 2 ==> glob[1] == front[1];
    assert |front| >= 3 ==> glob[2] == front[2];
  }

  lemma {:induction false} CompileOfConcat(front: string, back: string)
    requires IsClosed(front)
    ensures Compile(front + back) == Compile(front) + Compile(back)
    decreases |front|
  {
    EmptyCompiles();
    hide Compile, TokenPiece, IsClosed;
    if front == "" {
      assert front + back == back;
    } else {
      TokenOfConcat(front, back);
      CompileStep(front);
      CompileStep(front + back);
      var n := TokenLength(front);
      assert (front + back)[n..] == front[n..] + back;
      CompileOfConcat(front[n..], back);
      hide TokenLength;
    }
  }

  lemma {:induction false} MatchesOfConcat(p: seq<Piece>, q: seq<Piece>, s: string)
    ensures Matches(p + q, s) <==> exists i :: 0 <= i <= |s| && Matches(p, s[..i]) && Matches(q, s[i..])
  {
    if Matches(p + q, s) { var i := CutBetween(p, q, s); }
    if i :| 0 <= i <= |s| && Matches(p, s[..i]) && Matches(q, s[i..]) {
      MatchesTogether(p, q, s[..i], s[i..]);
      assert s[..i] + s[i..] == s;
    }
  }

  lemma {:induction false} MatchesTogether(p: seq<Piece>, q: seq<Piece>, s: string, t: string)
    requires Matches(p, s) && Matches(q, t)
    ensures Matches(p + q, s + t)
    decreases |p|, |s|
  {
    if p == [] {
      assert p + q == q && s + t == t;
    } else {
      assert (p + q)[1..] == p[1..] + q;
      assert s != "" ==> (s + t)[1..] == s[1..] + t;
      if IsRun(p[0]) {
        if Matches(p[1..], s) { MatchesTogether(p[1..], q, s, t); } else { MatchesTogether(p, q, s[1..], t); }
      } else {
        MatchesTogether(p[1..], q, s[1..], t);
      }
    }
  }

  lemma {:induction false} CutBetween(p: seq<Piece>, q: seq<Piece>, s: string) returns (i: nat)
    requires Matches(p + q, s)
    ensures i <= |s| && Matches(p, s[..i]) && Matches(q, s[i..])
    decreases |p|, |s|
  {
    if p == [] {
      i := 0;
      assert p + q == q && s[0..] == s;
    } else {
      assert (p + q)[1..] == p[1..] + q && (p + q)[0] == p[0];
      if IsRun(p[0]) && Matches(p[1..] + q, s) {
        i := CutBetween(p[1..], q, s);
      } else if IsRun(p[0]) {
        var k := CutBetween(p, q, s[1..]);
        i := k + 1;
        assert s[..i][1..] == s[1..][..k] && s[i..] == s[1..][k..];
      } else {
        var k := CutBetween(p[1..], q, s[1..]);
        i := k + 1;
        assert s[..i][1..] == s[1..][..k] && s[i..] == s[1..][k..];
      }
    }
  }

  /** A glob that is cut where no star joins another matches what its two parts match, one behind the other. */
  lemma GlobOfConcat(front: string, back: string, path: string)
    requires IsClosed(front)
    ensures MatchesGlob(front + back, path) <==>
            exists i :: 0 <= i <= |path| && MatchesGlob(front, path[..i]) && MatchesGlob(back, path[i..])
  {
    CompileOfConcat(front, back);
    MatchesOfConcat(Compile(front), Compile(back), path);
  }

  // ---------------------------------------------------------------- one piece

  lemma {:induction false} OnePiece(p: Piece, word: string)
    ensures Matches([p], word) <==> Accepts(p, word)
    decreases |word|
  {
    assert [p][1..] == [];
    if word != "" {
      OnePiece(p, word[1..]);
      assert forall i :: 0 < i < |word| ==> word[i] == word[1..][i - 1];
    }
  }

  lemma PieceFirst(token: string, p: Piece, rest: string, path: string)
    requires Compile(token + rest) == [p] + Compile(rest)
    ensures MatchesGlob(token + rest, path) <==> exists k :: 0 <= k <= |path| && Accepts(p, path[..k]) && MatchesGlob(rest, path[k..])
  {
    MatchesOfConcat([p], Compile(rest), path);
    forall k | 0 <= k <= |path| ensures Matches([p], path[..k]) <==> Accepts(p, path[..k]) { OnePiece(p, path[..k]); }
    hide Compile, Matches, Accepts;
  }

  /** The piece takes a stretch of the path between what the glob before it and the one behind it match. */
  predicate Stands(front: string, p: Piece, rest: string, path: string, i: nat, j: nat) {
    i <= j <= |path| && MatchesGlob(front, path[..i]) && Accepts(p, path[i..j]) && MatchesGlob(rest, path[j..])
  }

  lemma PieceStands(front: string, token: string, p: Piece, rest: string, path: string) returns (i: nat, j: nat)
    requires IsClosed(front) && Compile(token + rest) == [p] + Compile(rest) && MatchesGlob(front + (token + rest), path)
    ensures Stands(front, p, rest, path, i, j)
  {
    GlobOfConcat(front, token + rest, path);
    hide Compile, MatchesGlob, Accepts;
    i :| 0 <= i <= |path| && MatchesGlob(front, path[..i]) && MatchesGlob(token + rest, path[i..]);
    var tail := path[i..];
    PieceFirst(token, p, rest, tail);
    var k :| 0 <= k <= |tail| && Accepts(p, tail[..k]) && MatchesGlob(rest, tail[k..]);
    j := i + k;
    assert tail[..k] == path[i..j] && tail[k..] == path[j..];
  }

  lemma StandingMatches(front: string, token: string, p: Piece, rest: string, path: string, i: nat, j: nat)
    requires IsClosed(front) && Compile(token + rest) == [p] + Compile(rest) && Stands(front, p, rest, path, i, j)
    ensures MatchesGlob(front + (token + rest), path)
  {
    var tail := path[i..];
    PieceFirst(token, p, rest, tail);
    assert tail[..j - i] == path[i..j] && tail[j - i..] == path[j..];
    hide Compile, MatchesGlob, Accepts;
    assert MatchesGlob(token + rest, tail);
    GlobOfConcat(front, token + rest, path);
  }

  // ---------------------------------------------------------------- the wildcards

  /** A star stands for any run of characters without a slash. */
  lemma StarIff(front: string, rest: string, path: string)
    requires IsClosed(front) && (rest == "" || rest[0] != '*')
    ensures MatchesGlob(front + ("*" + rest), path) <==>
            exists i, j :: 0 <= i <= j <= |path| && MatchesGlob(front, path[..i]) && '/' !in path[i..j] && MatchesGlob(rest, path[j..])
  {
    CompileStep("*" + rest);
    assert ("*" + rest)[1..] == rest;
    hide Compile, MatchesGlob;
    if MatchesGlob(front + ("*" + rest), path) { var i, j := PieceStands(front, "*", SegmentRun, rest, path); }
    if i, j :| 0 <= i <= j <= |path| && MatchesGlob(front, path[..i]) && '/' !in path[i..j] && MatchesGlob(rest, path[j..]) {
      StandingMatches(front, "*", SegmentRun, rest, path, i, j);
    }
  }

  /** A question mark stands for one character that is no slash. */
  lemma QuestionMarkIff(front: string, rest: string, path: string)
    requires IsClosed(front)
    ensures MatchesGlob(front + ("?" + rest), path) <==>
            exists i :: 0 <= i < |path| && MatchesGlob(front, path[..i]) && path[i] != '/' && MatchesGlob(rest, path[i + 1..])
  {
    CompileStep("?" + rest);
    assert ("?" + rest)[1..] == rest;
    hide Compile, MatchesGlob;
    if MatchesGlob(front + ("?" + rest), path) { var i, j := PieceStands(front, "?", SegmentChar, rest, path); }
    if i :| 0 <= i < |path| && MatchesGlob(front, path[..i]) && path[i] != '/' && MatchesGlob(rest, path[i + 1..]) {
      StandingMatches(front, "?", SegmentChar, rest, path, i, i + 1);
    }
  }

  /** No character of the text ends a line. */
  predicate IsOneLine(text: string) {
    forall i :: 0 <= i < |text| ==> !IsLineTerminator(text[i])
  }

  /** Two stars stand for any run of characters within a line, slashes included. */
  lemma DoubleStarIff(front: string, rest: string, path: string)
    requires IsClosed(front) && (rest == "" || rest[0] != '/')
    ensures MatchesGlob(front + ("**" + rest), path) <==>
            exists i, j :: 0 <= i <= j <= |path| && MatchesGlob(front, path[..i]) && IsOneLine(path[i..j]) && MatchesGlob(rest, path[j..])
  {
    CompileStep("**" + rest);
    assert ("**" + rest)[2..] == rest;
    hide Compile, MatchesGlob;
    if MatchesGlob(front + ("**" + rest), path) { var i, j := PieceStands(front, "**", AnyRun, rest, path); }
    if i, j :| 0 <= i <= j <= |path| && MatchesGlob(front, path[..i]) && IsOneLine(path[i..j]) && MatchesGlob(rest, path[j..]) {
      StandingMatches(front, "**", AnyRun, rest, path, i, j);
    }
  }

  /** A slash behind two stars stands for nothing, so what lies in the directory itself is matched as well. */
  lemma DoubleStarSlashIff(front: string, rest: string, path: string)
    requires IsClosed(front)
    ensures MatchesGlob(front + ("**/" + rest), path) <==>
            exists i, j :: 0 <= i <= j <= |path| && MatchesGlob(front, path[..i]) && IsOneLine(path[i..j]) && MatchesGlob(rest, path[j..])
  {
    CompileStep("**/" + rest);
    assert ("**/" + rest)[3..] == rest;
    hide Compile, MatchesGlob;
    if MatchesGlob(front + ("**/" + rest), path) { var i, j := PieceStands(front, "**/", AnyRun, rest, path); }
    if i, j :| 0 <= i <= j <= |path| && MatchesGlob(front, path[..i]) && IsOneLine(path[i..j]) && MatchesGlob(rest, path[j..]) {
      StandingMatches(front, "**/", AnyRun, rest, path, i, j);
    }
  }

  /** Any other character stands for itself, and a glob of nothing for nothing. */
  lemma OtherCharacterIff(front: string, c: char, rest: string, path: string)
    requires IsClosed(front) && c != '*' && c != '?'
    ensures MatchesGlob(front + ([c] + rest), path) <==>
            exists i :: 0 <= i < |path| && MatchesGlob(front, path[..i]) && path[i] == c && MatchesGlob(rest, path[i + 1..])
    ensures MatchesGlob("", path) <==> path == ""
  {
    CompileStep([c] + rest);
    assert ([c] + rest)[1..] == rest;
    LiteralGlob("", path);
    hide Compile, MatchesGlob;
    if MatchesGlob(front + ([c] + rest), path) { var i, j := PieceStands(front, [c], Literal(c), rest, path); }
    if i :| 0 <= i < |path| && MatchesGlob(front, path[..i]) && path[i] == c && MatchesGlob(rest, path[i + 1..]) {
      StandingMatches(front, [c], Literal(c), rest, path, i, i + 1);
    }
  }
}
