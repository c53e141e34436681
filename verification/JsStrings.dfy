/** The string operations the modelled code leans on: splitting and joining, trimming, whitespace-separated tokens. */
module JsStrings {

  datatype Option<+T> = None | Some(value: T)

  predicate StartsWith(s: string, prefix: string) {
    |prefix| <= |s| && s[..|prefix|] == prefix
  }

  predicate EndsWith(s: string, suffix: string) {
    |suffix| <= |s| && s[|s| - |suffix|..] == suffix
  }

  function Last<T>(xs: seq<T>): T
    requires |xs| > 0
  {
    xs[|xs| - 1]
  }

  /** The characters that `\s` matches and `trim` removes. */
  predicate IsSpace(c: char) {
    c in " \t\n\r" || c == '\U{000B}' || c == '\U{000C}' || c == '\U{00A0}' || c == '\U{1680}' ||
    '\U{2000}' <= c <= '\U{200A}' || c == '\U{2028}' || c == '\U{2029}' || c == '\U{202F}' ||
    c == '\U{205F}' || c == '\U{3000}' || c == '\U{FEFF}'
  }

  /** `!s.trim()` */
  predicate IsBlank(s: string) {
    forall i :: 0 <= i < |s| ==> IsSpace(s[i])
  }

  function TrimStart(s: string): string {
    if s != "" && IsSpace(s[0]) then TrimStart(s[1..]) else s
  }

  function TrimEnd(s: string): string {
    if s != "" && IsSpace(s[|s| - 1]) then TrimEnd(s[..|s| - 1]) else s
  }

  function Trim(s: string): string {
    TrimEnd(TrimStart(s))
  }

  /** Trimming takes the space from both ends and nothing else. */
  lemma {:induction false} TrimTakesTheSpace(space: string, text: string, tail: string)
    requires IsBlank(space) && IsBlank(tail) && text != "" && !IsSpace(text[0]) && !IsSpace(text[|text| - 1])
    ensures Trim(space + text + tail) == text
  {
    hide IsSpace;
    StartIsTaken(space, text + tail);
    assert space + text + tail == space + (text + tail);
    EndIsTaken(text, tail);
  }

  lemma {:induction false} StartIsTaken(space: string, text: string)
    requires IsBlank(space) && text != "" && !IsSpace(text[0])
    ensures TrimStart(space + text) == text
  {
    hide IsSpace;
    if space == "" {
      assert space + text == text;
    } else {
      assert (space + text)[1..] == space[1..] + text;
      StartIsTaken(space[1..], text);
    }
  }

  lemma {:induction false} EndIsTaken(text: string, tail: string)
    requires IsBlank(tail) && text != "" && !IsSpace(text[|text| - 1])
    ensures TrimEnd(text + tail) == text
  {
    hide IsSpace;
    if tail == "" {
      assert text + tail == text;
    } else {
      assert (text + tail)[..|text + tail| - 1] == text + tail[..|tail| - 1];
      EndIsTaken(text, tail[..|tail| - 1]);
    }
  }

  /** Lower case, for ASCII letters. */
  function Lower(c: char): char {
    if 'A' <= c <= 'Z' then (c as int + 32) as char else c
  }

  function Min(a: int, b: int): int {
    if a <= b then a else b
  }

  function Prefix<T>(s: seq<T>, n: nat): seq<T> {
    s[..Min(n, |s|)]
  }

  // ---------------------------------------------------------------- split and join

  predicate Without(parts: seq<string>, sep: char) {
    forall i :: 0 <= i < |parts| ==> sep !in parts[i]
  }

  /** `s.split(sep)` for a one-character separator. */
  function Split(s: string, sep: char): (parts: seq<string>)
    ensures |parts| > 0
    ensures Without(parts, sep)
  {
    if s == "" then [""]
    else if s[0] == sep then [""] + Split(s[1..], sep)
    else
      var rest := Split(s[1..], sep);
      [[s[0]] + rest[0]] + rest[1..]
  }

  /** `parts.join(sep)` */
  function Join(parts: seq<string>, sep: string): string {
    if |parts| == 0 then ""
    else if |parts| == 1 then parts[0]
    else parts[0] + sep + Join(parts[1..], sep)
  }

  lemma {:induction false} SplitWithout(s: string, sep: char)
    requires sep !in s
    ensures Split(s, sep) == [s]
  {
    if s != "" {
      SplitWithout(s[1..], sep);
      assert [s[0]] + s[1..] == s;
    }
  }

  /** Two splits laid end to end: the last part of the one and the first part of the other are one part. */
  function Glue(a: seq<string>, b: seq<string>): (parts: seq<string>)
    requires |a| > 0 && |b| > 0
    ensures |parts| == |a| + |b| - 1
  {
    if |a| == 1 then [a[0] + b[0]] + b[1..] else [a[0]] + Glue(a[1..], b)
  }

  lemma GlueHead(c: char, a: seq<string>, b: seq<string>)
    requires |a| > 0 && |b| > 0
    ensures Glue([[c] + a[0]] + a[1..], b) == [[c] + Glue(a, b)[0]] + Glue(a, b)[1..]
  {
    var a' := [[c] + a[0]] + a[1..];
    if |a| == 1 {
      assert ([c] + a[0]) + b[0] == [c] + (a[0] + b[0]);
    } else {
      assert a'[1..] == a[1..];
    }
  }

  lemma {:induction false} GlueShape(a: seq<string>, b: seq<string>)
    requires |a| > 0 && |b| > 0
    ensures Glue(a, b) == a[..|a| - 1] + Glue([Last(a)], b)
  {
    if |a| > 1 {
      GlueShape(a[1..], b);
      assert a[..|a| - 1] == [a[0]] + a[1..][..|a| - 2];
    } else {
      assert a[..0] + Glue(a, b) == Glue(a, b);
    }
  }

  /** Cutting a text anywhere cuts one part of its split in two. */
  lemma {:induction false} SplitOfConcat(a: string, b: string, sep: char)
    ensures Split(a + b, sep) == Glue(Split(a, sep), Split(b, sep))
  {
    if a == "" {
      assert a + b == b;
      assert "" + Split(b, sep)[0] == Split(b, sep)[0];
    } else {
      SplitOfConcat(a[1..], b, sep);
      assert (a + b)[1..] == a[1..] + b;
      if a[0] == sep {
        assert ([""] + Split(a[1..], sep))[1..] == Split(a[1..], sep);
      } else {
        GlueHead(a[0], Split(a[1..], sep), Split(b, sep));
      }
    }
  }

  lemma SplitAround(a: string, b: string, sep: char)
    ensures Split(a + [sep] + b, sep) == Split(a, sep) + Split(b, sep)
  {
    assert a + [sep] + b == a + ([sep] + b);
    SplitOfConcat(a, [sep] + b, sep);
    SplitOfBehind(b, sep);
    hide Split;
    GlueEmpty(Split(a, sep), Split(b, sep));
  }

  lemma SplitOfBehind(b: string, sep: char)
    ensures Split([sep] + b, sep) == [""] + Split(b, sep)
  {
    assert ([sep] + b)[1..] == b;
  }

  lemma {:induction false} GlueEmpty(a: seq<string>, b: seq<string>)
    requires |a| > 0
    ensures Glue(a, [""] + b) == a + b
    decreases |a|
  {
    if |a| == 1 {
      assert a[0] + "" == a[0] && ([""] + b)[1..] == b;
    } else {
      GlueEmpty(a[1..], b);
      hide Glue;
      assert [a[0]] + (a[1..] + b) == a + b;
      GlueUnfolds(a, [""] + b);
    }
  }

  lemma GlueUnfolds(a: seq<string>, b: seq<string>)
    requires |a| > 1 && |b| > 0
    ensures Glue(a, b) == [a[0]] + Glue(a[1..], b)
  {}

  lemma {:induction false} JoinOfSplit(s: string, sep: char)
    ensures Join(Split(s, sep), [sep]) == s
  {
    if s != "" {
      JoinOfSplit(s[1..], sep);
      var rest := Split(s[1..], sep);
      if s[0] == sep {
        assert ([""] + rest)[1..] == rest;
      } else {
        assert ([[s[0]] + rest[0]] + rest[1..])[1..] == rest[1..];
        assert |rest| > 1 ==> ([s[0]] + rest[0]) + [sep] + Join(rest[1..], [sep]) == [s[0]] + (rest[0] + [sep] + Join(rest[1..], [sep]));
      }
    }
  }

  lemma {:induction false} SplitOfJoin(parts: seq<string>, sep: char)
    requires |parts| > 0
    requires Without(parts, sep)
    ensures Split(Join(parts, [sep]), sep) == parts
  {
    if |parts| == 1 {
      SplitWithout(parts[0], sep);
    } else {
      SplitOfJoin(parts[1..], sep);
      SplitWithout(parts[0], sep);
      SplitAround(parts[0], Join(parts[1..], [sep]), sep);
    }
  }

  lemma {:induction false} JoinOfConcat(a: seq<string>, b: seq<string>, sep: string)
    requires |a| > 0 && |b| > 0
    ensures Join(a + b, sep) == Join(a, sep) + sep + Join(b, sep)
  {
    assert (a + b)[1..] == a[1..] + b;
    if |a| > 1 {
      JoinOfConcat(a[1..], b, sep);
      assert a[0] + sep + (Join(a[1..], sep) + sep + Join(b, sep)) == (a[0] + sep + Join(a[1..], sep)) + sep + Join(b, sep);
    } else {
      assert a + b == [a[0]] + b;
    }
  }

  // ---------------------------------------------------------------- tokens

  /** How many characters a leading run of non-space characters has. */
  function WordLength(s: string): (n: nat)
    ensures n <= |s|
    ensures forall i :: 0 <= i < n ==> !IsSpace(s[i])
    ensures n < |s| ==> IsSpace(s[n])
  {
    if s == "" || IsSpace(s[0]) then 0 else 1 + WordLength(s[1..])
  }

  /** `s.trim().split(/\s+/).filter(t => t.length > 0)`: the maximal runs of non-space characters, in order. */
  function Tokens(s: string): (tokens: seq<string>)
    ensures forall i :: 0 <= i < |tokens| ==> IsToken(tokens[i])
    decreases |s|
  {
    if s == "" then []
    else if IsSpace(s[0]) then Tokens(s[1..])
    else [s[..WordLength(s)]] + Tokens(s[WordLength(s)..])
  }

  predicate IsToken(t: string) {
    t != "" && forall i :: 0 <= i < |t| ==> !IsSpace(t[i])
  }

  lemma {:induction false} TokensSkipSpace(space: string, s: string)
    requires IsBlank(space)
    ensures Tokens(space + s) == Tokens(s)
  {
    if space == "" {
      assert space + s == s;
    } else {
      assert (space + s)[1..] == space[1..] + s;
      TokensSkipSpace(space[1..], s);
    }
  }

  lemma TokensOfBlank(s: string)
    requires IsBlank(s)
    ensures Tokens(s) == []
  {
    TokensSkipSpace(s, "");
    assert s + "" == s;
  }

  lemma {:induction false} WordLengthOfToken(t: string, s: string)
    requires IsToken(t) || t == ""
    requires s == "" || IsSpace(s[0])
    ensures WordLength(t + s) == |t|
  {
    if t == "" {
      assert t + s == s;
    } else {
      assert (t + s)[1..] == t[1..] + s;
      assert IsToken(t[1..]) || t[1..] == "";
      WordLengthOfToken(t[1..], s);
    }
  }

  lemma TokensOfWord(t: string, s: string)
    requires IsToken(t)
    requires s == "" || IsSpace(s[0])
    ensures Tokens(t + s) == [t] + Tokens(s)
  {
    WordLengthOfToken(t, s);
    assert (t + s)[..|t|] == t && (t + s)[|t|..] == s;
  }

  /** Tokens joined by single spaces, behind any indentation, are read back. */
  lemma {:induction false} TokensOfJoin(space: string, tokens: seq<string>)
    requires IsBlank(space)
    requires forall i :: 0 <= i < |tokens| ==> IsToken(tokens[i])
    ensures Tokens(space + Join(tokens, " ")) == tokens
    decreases |tokens|
  {
    TokensSkipSpace(space, Join(tokens, " "));
    hide Tokens, IsSpace;
    if |tokens| == 0 {
      TokensOfBlank("");
    } else if |tokens| == 1 {
      TokensOfWord(tokens[0], "");
      TokensOfBlank("");
      assert tokens[0] + "" == tokens[0];
    } else {
      TokensOfJoin(" ", tokens[1..]) by { OneSpace(); }
      TokensOfNext(tokens[0], Join(tokens[1..], " "));
      hide Join;
      assert [tokens[0]] + tokens[1..] == tokens;
    }
  }

  lemma OneSpace()
    ensures IsBlank(" ") && IsSpace(' ')
  {}

  lemma TokensOfNext(t: string, rest: string)
    requires IsToken(t)
    ensures Tokens(t + " " + rest) == [t] + Tokens(" " + rest)
  {
    OneSpace();
    hide Tokens, IsSpace, IsToken;
    TokensOfWord(t, " " + rest);
    assert t + " " + rest == t + (" " + rest);
  }

  lemma TokensUnfold(s: string)
    requires s != "" && !IsSpace(s[0])
    ensures WordLength(s) > 0 && Tokens(s) == [s[..WordLength(s)]] + Tokens(s[WordLength(s)..])
  {}

  /** A space ends a word, so the tokens on both sides of it are read apart. */
  lemma {:induction false} TokensAtSpace(a: string, c: char, b: string)
    requires IsSpace(c)
    ensures Tokens(a + [c] + b) == Tokens(a) + Tokens(b)
    decreases |a|
  {
    hide Tokens, WordLength, IsSpace;
    var s := a + [c] + b;
    if a == "" {
      assert s == [c] + b;
      TokensSkip(c, b);
      NoTokens();
    } else if IsSpace(a[0]) {
      assert a == [a[0]] + a[1..] && s == [a[0]] + (a[1..] + [c] + b);
      TokensSkip(a[0], a[1..]);
      TokensSkip(a[0], a[1..] + [c] + b);
      TokensAtSpace(a[1..], c, b);
    } else {
      var w := WordLength(a);
      WordLengthAtSpace(a, c, b);
      TokensUnfold(a);
      TokensUnfold(s);
      assert s[..w] == a[..w] && s[w..] == a[w..] + [c] + b;
      TokensAtSpace(a[w..], c, b);
    }
  }

  lemma NoTokens()
    ensures Tokens("") == []
  {}

  lemma TokensSkip(c: char, s: string)
    requires IsSpace(c)
    ensures Tokens([c] + s) == Tokens(s)
  {
    assert ([c] + s)[1..] == s;
  }

  lemma {:induction false} WordLengthAtSpace(a: string, c: char, b: string)
    requires IsSpace(c)
    ensures WordLength(a + [c] + b) == WordLength(a)
  {
    if a != "" && !IsSpace(a[0]) {
      assert (a + [c] + b)[1..] == a[1..] + [c] + b;
      WordLengthAtSpace(a[1..], c, b);
    }
  }

  lemma {:induction false} BlankIffNoTokens(s: string)
    ensures IsBlank(s) <==> Tokens(s) == []
  {
    if s != "" && IsSpace(s[0]) {
      BlankIffNoTokens(s[1..]);
      assert s == [s[0]] + s[1..];
    }
  }

  // ---------------------------------------------------------------- lines that hold newlines

  function SplitAll(parts: seq<string>, sep: char): seq<string> {
    if parts == [] then [] else Split(parts[0], sep) + SplitAll(parts[1..], sep)
  }

  /** A text joined from parts that may themselves be split falls into the pieces of the parts. */
  lemma {:induction false} SplitOfJoinAny(parts: seq<string>, sep: char)
    requires parts != []
    ensures Split(Join(parts, [sep]), sep) == SplitAll(parts, sep)
  {
    if |parts| == 1 {
      assert SplitAll(parts[1..], sep) == [];
    } else {
      SplitAround(parts[0], Join(parts[1..], [sep]), sep);
      SplitOfJoinAny(parts[1..], sep);
    }
  }

  lemma SplitAllOfCons(part: string, rest: seq<string>, sep: char)
    ensures SplitAll([part] + rest, sep) == Split(part, sep) + SplitAll(rest, sep)
  {
    assert ([part] + rest)[1..] == rest;
  }

  lemma {:induction false} SplitAllOfConcat(a: seq<string>, b: seq<string>, sep: char)
    ensures SplitAll(a + b, sep) == SplitAll(a, sep) + SplitAll(b, sep)
    decreases |a|
  {
    hide Split;
    if a == [] {
      assert a + b == b;
      assert SplitAll(a, sep) == [] && [] + SplitAll(b, sep) == SplitAll(b, sep);
    } else {
      var rest := a[1..];
      SplitAllOfConcat(rest, b, sep);
      SplitAllOfCons(a[0], rest, sep);
      SplitAllOfCons(a[0], rest + b, sep);
      hide SplitAll;
      assert a == [a[0]] + rest;
      assert a + b == [a[0]] + (rest + b);
    }
  }

  lemma {:induction false} SplitAllWithout(parts: seq<string>, sep: char)
    requires Without(parts, sep)
    ensures SplitAll(parts, sep) == parts
  {
    if parts != [] {
      SplitWithout(parts[0], sep);
      SplitAllWithout(parts[1..], sep);
    }
  }

  lemma SplitBehind(head: string, text: string, sep: char)
    requires sep !in head
    ensures Split(head + text, sep) == [head + Split(text, sep)[0]] + Split(text, sep)[1..]
  {
    SplitOfConcat(head, text, sep);
    SplitWithout(head, sep);
  }
}
