/** The verdict on a fix round, in terms of the lines as they are written: neither case nor spacing hides a suppression. */
module FixRoundVerdict {
  import opened JsStrings
  import opened FixRoundGuard

  // ---------------------------------------------------------------- spelling

  /** Only the capitals A to Z have another lower case, and it is the letter at the same place of the alphabet. */
  lemma LowerIs(c: char)
    ensures 'A' <= c <= 'Z' ==> 'a' <= Lower(c) <= 'z' && Lower(c) as int - 'a' as int == c as int - 'A' as int
    ensures !('A' <= c <= 'Z') ==> Lower(c) == c
  {}

  lemma {:induction false} NormaliseOfConcat(a: string, b: string)
    ensures Normalise(a + b) == Normalise(a) + Normalise(b)
    decreases |a|
  {
    hide IsSpace;
    if a == "" {
      assert a + b == b;
    } else {
      NormaliseOfCons(a[0], a[1..]);
      NormaliseOfCons(a[0], a[1..] + b);
      hide Normalise;
      assert a == [a[0]] + a[1..] && a + b == [a[0]] + (a[1..] + b);
      NormaliseOfConcat(a[1..], b);
    }
  }

  lemma NormaliseOfCons(c: char, text: string)
    ensures Normalise([c] + text) == Normalise([c]) + Normalise(text)
  {
    assert ([c] + text)[1..] == text && [c][1..] == "";
  }

  /** A character counts as itself in lower case, and not at all when it is a space. */
  lemma OneCharacter(c: char)
    ensures Normalise([c]) == if IsSpace(c) then "" else [Lower(c)]
    ensures IsSpace(Lower(c)) <==> IsSpace(c)
    ensures Lower(Lower(c)) == Lower(c)
  {
    assert [c][1..] == "";
  }

  /** One text is the other with a letter in another case, or with a space less. */
  ghost predicate IsRespelled(text: string, other: string) {
    exists a: string, c: char, b: string :: text == a + [c] + b && (other == a + [Lower(c)] + b || (IsSpace(c) && other == a + b))
  }

  lemma RespelledReadsTheSame(text: string, other: string)
    requires IsRespelled(text, other)
    ensures Normalise(text) == Normalise(other)
  {
    var a: string, c: char, b: string :|
      text == a + [c] + b && (other == a + [Lower(c)] + b || (IsSpace(c) && other == a + b));
    SpellingIsIgnored(a, c, b);
  }

  /** Neither the case of a letter nor a space anywhere in a text makes a difference. */
  lemma SpellingIsIgnored(a: string, c: char, b: string)
    ensures Normalise(a + [c] + b) == Normalise(a + [Lower(c)] + b)
    ensures IsSpace(c) ==> Normalise(a + [c] + b) == Normalise(a + b)
    ensures !IsSpace(c) ==> Normalise(a + [c] + b) == Normalise(a) + [Lower(c)] + Normalise(b)
  {
    NormaliseOfConcat(a + [c], b);
    NormaliseOfConcat(a + [Lower(c)], b);
    NormaliseOfConcat(a, [c]);
    NormaliseOfConcat(a, [Lower(c)]);
    NormaliseOfConcat(a, b);
    OneCharacter(c);
    OneCharacter(Lower(c));
    hide Normalise, IsSpace;
  }

  // ---------------------------------------------------------------- counts

  /** Lines are counted one by one: disjoint occurrences of the pattern, both read without case and spacing. */
  lemma CountsLineByLine(a: seq<string>, line: string, b: seq<string>, pattern: string)
    ensures Occurrences(a + [line] + b, pattern) == Occurrences(a, pattern) + Occurrences([line], pattern) + Occurrences(b, pattern)
    ensures Normalise(pattern) == "" ==> Occurrences([line], pattern) == 0
    ensures Normalise(pattern) != "" ==>
              && (forall places :: IsPacking(Normalise(line), Normalise(pattern), places) ==> |places| <= Occurrences([line], pattern))
              && (exists places :: IsPacking(Normalise(line), Normalise(pattern), places) && |places| == Occurrences([line], pattern))
  {
    var needle := Normalise(pattern);
    if needle != "" {
      SumOfConcat(a + [line], b, needle);
      SumOfConcat(a, [line], needle);
      SumOfOne(line, needle);
      hide Normalise, CountIn, SumOf;
      CountIsTheMaximum(Normalise(line), needle);
    }
  }

  lemma SumOfOne(line: string, needle: string)
    requires needle != ""
    ensures SumOf([line], needle) == CountIn(Normalise(line), needle)
  {
    assert [line][1..] == [];
    hide CountIn;
  }

  /** A count is the same whatever the spelling of a line, or of the pattern. */
  lemma SpellingDoesNotCount(a: seq<string>, line: string, other: string, b: seq<string>, pattern: string)
    requires Normalise(line) == Normalise(other)
    ensures Occurrences(a + [line] + b, pattern) == Occurrences(a + [other] + b, pattern)
    ensures forall lines :: Occurrences(lines, line) == Occurrences(lines, other)
  {
    CountsLineByLine(a, line, b, pattern);
    CountsLineByLine(a, other, b, pattern);
    if Normalise(pattern) != "" {
      SumOfOne(line, Normalise(pattern));
      SumOfOne(other, Normalise(pattern));
    }
    hide Normalise, SumOf;
  }

  /** A line that holds the pattern, in any spelling, counts at least once. */
  lemma HeldPatternCounts(front: string, spelt: string, back: string, pattern: string)
    requires Normalise(spelt) == Normalise(pattern) != ""
    ensures Occurrences([front + spelt + back], pattern) >= 1
  {
    var line := front + spelt + back;
    NormaliseOfConcat(front + spelt, back);
    NormaliseOfConcat(front, spelt);
    var place: nat := |Normalise(front)|;
    hide Normalise;
    assert Normalise(line)[place..place + |Normalise(pattern)|] == Normalise(pattern);
    assert IsPacking(Normalise(line), Normalise(pattern), [place]);
    CountsLineByLine([], line, [], pattern);
  }

  // ---------------------------------------------------------------- the verdict

  /** The pattern stands in the table of one of the languages, or in the repository's section. */
  predicate IsListed(pattern: string, languages: seq<Language>, section: string) {
    || pattern in ParseAdditions(section)
    || exists i :: 0 <= i < |languages| && pattern in FrameworkTable(languages[i])
  }

  /** The file touches no protected path, and adds no listed pattern more often than it removes it. */
  ghost predicate IsHarmless(file: DiffFile, languages: seq<Language>, section: string, rules: PathRules) {
    && (file.oldPath.Some? ==> rules(file.oldPath.value).None?)
    && (file.newPath.Some? ==> rules(file.newPath.value).None?)
    && forall pattern :: IsListed(pattern, languages, section) ==>
         Occurrences(file.addedLines, pattern) <= Occurrences(file.removedLines, pattern)
  }

  lemma ListedIff(pattern: string, languages: seq<Language>, section: string)
    ensures IsListed(pattern, languages, section) <==> IsConfigured(pattern, languages, section)
  {
    hide FrameworkTable, ParseAdditions;
    var framework, repository := FrameworkPatterns(languages, {}), PatternsFrom(ParseAdditions(section), Repository);
    if pattern in ParseAdditions(section) {
      FromPatternsIff(ParseAdditions(section), Repository, GuardPattern(pattern, Repository));
      assert GuardPattern(pattern, Repository) in framework + repository;
    }
    if i :| 0 <= i < |languages| && pattern in FrameworkTable(languages[i]) {
      FrameworkPatternIff(languages, {}, GuardPattern(pattern, Framework(languages[i])));
      assert GuardPattern(pattern, Framework(languages[i])) in framework + repository;
    }
    if p: GuardPattern :| p in framework + repository && p.pattern == pattern {
      FromPatternsIff(ParseAdditions(section), Repository, p);
      FrameworkPatternIff(languages, {}, p);
    }
  }

  lemma {:induction false} DistinctAreThere(patterns: seq<GuardPattern>, seen: set<string>, p: GuardPattern)
    requires p in Distinct(patterns, seen)
    ensures p in patterns
  {
    hide Normalise;
    var key := Normalise(patterns[0].pattern);
    if key == "" || key in seen {
      DistinctAreThere(patterns[1..], seen, p);
    } else if p != patterns[0] {
      DistinctAreThere(patterns[1..], seen + {key}, p);
    }
  }

  /** A listed pattern is judged by the one kept for it, which reads the same. */
  lemma ListedIsJudged(pattern: string, languages: seq<Language>, section: string)
    requires IsListed(pattern, languages, section) && Normalise(pattern) != ""
    ensures exists q: GuardPattern :: q in BuildPatterns(languages, section) && Normalise(q.pattern) == Normalise(pattern)
  {
    hide Normalise;
    ListedIff(pattern, languages, section);
    var all := FrameworkPatterns(languages, {}) + PatternsFrom(ParseAdditions(section), Repository);
    var p :| p in all && p.pattern == pattern;
    KeyIsKept(all, {}, p);
  }

  lemma JudgedIsListed(languages: seq<Language>, section: string, q: GuardPattern)
    requires q in BuildPatterns(languages, section)
    ensures IsListed(q.pattern, languages, section)
  {
    hide Normalise;
    var all := FrameworkPatterns(languages, {}) + PatternsFrom(ParseAdditions(section), Repository);
    DistinctAreThere(all, {}, q);
    ListedIff(q.pattern, languages, section);
  }

  lemma HarmlessIff(file: DiffFile, languages: seq<Language>, section: string, rules: PathRules)
    ensures IsHarmless(file, languages, section, rules) <==>
            forall r :: !IsReason(file, BuildPatterns(languages, section), rules, r)
  {
    hide IsListed, BuildPatterns, Occurrences, Normalise;
    var patterns := BuildPatterns(languages, section);
    if IsHarmless(file, languages, section, rules) {
      forall r ensures !IsReason(file, patterns, rules, r) {
        if r.Suppression? && r.pattern in patterns { JudgedIsListed(languages, section, r.pattern); }
      }
    }
    if forall r :: !IsReason(file, patterns, rules, r) {
      NoPathReason(file, patterns, rules);
      forall pattern | IsListed(pattern, languages, section)
        ensures Occurrences(file.addedLines, pattern) <= Occurrences(file.removedLines, pattern)
      {
        NoExcess(file, languages, section, rules, pattern);
      }
    }
  }

  lemma NoPathReason(file: DiffFile, patterns: seq<GuardPattern>, rules: PathRules)
    requires forall r :: !IsReason(file, patterns, rules, r)
    ensures file.oldPath.Some? ==> rules(file.oldPath.value).None?
    ensures file.newPath.Some? ==> rules(file.newPath.value).None?
  {
    if file.oldPath.Some? && rules(file.oldPath.value).Some? {
      assert IsReason(file, patterns, rules, ProtectedPath(file.oldPath.value, rules(file.oldPath.value).value));
    }
    if file.newPath.Some? && rules(file.newPath.value).Some? {
      assert IsReason(file, patterns, rules, ProtectedPath(file.newPath.value, rules(file.newPath.value).value));
    }
  }

  lemma NoExcess(file: DiffFile, languages: seq<Language>, section: string, rules: PathRules, pattern: string)
    requires forall r :: !IsReason(file, BuildPatterns(languages, section), rules, r)
    requires IsListed(pattern, languages, section)
    ensures Occurrences(file.addedLines, pattern) <= Occurrences(file.removedLines, pattern)
  {
    if Normalise(pattern) != "" {
      ListedIsJudged(pattern, languages, section);
      hide IsListed, BuildPatterns, Normalise;
      var q: GuardPattern :| q in BuildPatterns(languages, section) && Normalise(q.pattern) == Normalise(pattern);
      assert !IsReason(file, BuildPatterns(languages, section), rules, Suppression(PathOf(file), q));
    }
  }

  /** A round is accepted if and only if every one of its files is harmless. */
  lemma VerdictIff(files: seq<DiffFile>, languages: seq<Language>, section: string, rules: PathRules)
    ensures Accepted(files, BuildPatterns(languages, section), rules) <==>
            forall i :: 0 <= i < |files| ==> IsHarmless(files[i], languages, section, rules)
  {
    hide IsHarmless, IsReason, BuildPatterns, Reasons;
    var patterns := BuildPatterns(languages, section);
    if Accepted(files, patterns, rules) {
      forall i | 0 <= i < |files| ensures IsHarmless(files[i], languages, section, rules) {
        forall r ensures !IsReason(files[i], patterns, rules, r) { ReasonIff(files, patterns, rules, r); }
        HarmlessIff(files[i], languages, section, rules);
      }
    } else {
      var r := Reasons(files, patterns, rules)[0];
      ReasonIff(files, patterns, rules, r);
      var i :| 0 <= i < |files| && IsReason(files[i], patterns, rules, r);
      HarmlessIff(files[i], languages, section, rules);
    }
  }

  /** The same count of every pattern makes the same verdict. */
  lemma SameCountsSameVerdict(files: seq<DiffFile>, k: nat, file: DiffFile, languages: seq<Language>, section: string, rules: PathRules)
    requires k < |files| && file.oldPath == files[k].oldPath && file.newPath == files[k].newPath
    requires forall pattern :: Occurrences(file.addedLines, pattern) == Occurrences(files[k].addedLines, pattern)
    requires forall pattern :: Occurrences(file.removedLines, pattern) == Occurrences(files[k].removedLines, pattern)
    ensures var patterns := BuildPatterns(languages, section);
            Accepted(files[k := file], patterns, rules) <==> Accepted(files, patterns, rules)
  {
    hide BuildPatterns, IsListed, Occurrences, Accepted;
    VerdictIff(files, languages, section, rules);
    VerdictIff(files[k := file], languages, section, rules);
    assert IsHarmless(file, languages, section, rules) <==> IsHarmless(files[k], languages, section, rules);
    hide IsHarmless;
    forall i | 0 <= i < |files|
      ensures IsHarmless(files[k := file][i], languages, section, rules) <==> IsHarmless(files[i], languages, section, rules)
    {
      if i != k { assert files[k := file][i] == files[i]; }
    }
  }

  /** An added line that differs from another in case and spacing only makes the same verdict. */
  lemma VerdictIgnoresSpelling(
      files: seq<DiffFile>, k: nat, i: nat, other: string, languages: seq<Language>, section: string, rules: PathRules)
    requires k < |files| && i < |files[k].addedLines| && IsRespelled(files[k].addedLines[i], other)
    ensures
      var file, patterns := files[k].(addedLines := files[k].addedLines[i := other]), BuildPatterns(languages, section);
      Accepted(files[k := file], patterns, rules) <==> Accepted(files, patterns, rules)
  {
    hide BuildPatterns, Accepted, Normalise, IsRespelled, Occurrences;
    var lines := files[k].addedLines;
    RespelledReadsTheSame(lines[i], other);
    forall pattern ensures Occurrences(lines[i := other], pattern) == Occurrences(lines, pattern) {
      assert lines == lines[..i] + [lines[i]] + lines[i + 1..];
      assert lines[i := other] == lines[..i] + [other] + lines[i + 1..];
      SpellingDoesNotCount(lines[..i], lines[i], other, lines[i + 1..], pattern);
    }
    SameCountsSameVerdict(files, k, files[k].(addedLines := lines[i := other]), languages, section, rules);
  }

  lemma ExcessIsRejected(files: seq<DiffFile>, k: nat, pattern: string, languages: seq<Language>, section: string, rules: PathRules)
    requires k < |files| && IsListed(pattern, languages, section)
    requires Occurrences(files[k].addedLines, pattern) > Occurrences(files[k].removedLines, pattern)
    ensures !Accepted(files, BuildPatterns(languages, section), rules)
  {
    hide BuildPatterns, Accepted, IsListed, Occurrences;
    assert !IsHarmless(files[k], languages, section, rules);
    hide IsHarmless;
    VerdictIff(files, languages, section, rules);
  }

  /** A file that adds a line holding a listed pattern, in any spelling, and takes no such line away, is rejected. */
  lemma AddedSuppressionIsRejected(
      files: seq<DiffFile>, k: nat, i: nat, front: string, spelt: string, back: string, pattern: string,
      languages: seq<Language>, section: string, rules: PathRules)
    requires k < |files| && i < |files[k].addedLines| && files[k].addedLines[i] == front + spelt + back
    requires IsListed(pattern, languages, section) && Normalise(spelt) == Normalise(pattern) != ""
    requires Occurrences(files[k].removedLines, pattern) == 0
    ensures !Accepted(files, BuildPatterns(languages, section), rules)
  {
    hide BuildPatterns, Accepted, Normalise, IsListed, Occurrences;
    var lines := files[k].addedLines;
    HeldPatternCounts(front, spelt, back, pattern);
    assert lines == lines[..i] + [lines[i]] + lines[i + 1..];
    CountsLineByLine(lines[..i], lines[i], lines[i + 1..], pattern);
    ExcessIsRejected(files, k, pattern, languages, section, rules);
  }

  // ---------------------------------------------------------------- reading the section

  /** A line that is no entry: blank, a fence, or the words that say there is none. */
  predicate IsNoise(line: string) {
    IsBlank(line) || StartsWith(Trim(line), "```") || StartsWith(Trim(line), "~~~") || ToLower(EntryOf(line)) == "n/a"
  }

  lemma {:induction false} EntriesOfConcat(a: seq<string>, b: seq<string>)
    ensures EntriesOf(a + b) == EntriesOf(a) + EntriesOf(b)
    decreases |a|
  {
    NothingIsNoEntry();
    hide EntriesOf;
    if a == [] {
      assert a + b == b;
    } else {
      EntriesOfCons(a[0], a[1..]);
      EntriesOfCons(a[0], a[1..] + b);
      assert a == [a[0]] + a[1..] && a + b == [a[0]] + (a[1..] + b);
      EntriesOfConcat(a[1..], b);
    }
  }

  lemma NothingIsNoEntry()
    ensures EntriesOf([]) == []
  {}

  lemma EntriesOfCons(line: string, rest: seq<string>)
    ensures EntriesOf([line] + rest) == EntriesOf([line]) + EntriesOf(rest)
  {
    hide EntryOf, IsFence, Trim, ToLower;
    assert ([line] + rest)[1..] == rest && [line][1..] == [];
  }

  /** Such lines may stand anywhere in the section without adding to it. */
  lemma NoiseIsIgnored(a: seq<string>, line: string, b: seq<string>)
    requires IsNoise(line)
    ensures EntriesOf(a + [line] + b) == EntriesOf(a + b)
  {
    NoEntryIn(line);
    EntriesOfConcat(a + [line], b);
    EntriesOfConcat(a, [line]);
    EntriesOfConcat(a, b);
    hide EntriesOf, IsNoise;
  }

  lemma NoEntryIn(line: string)
    requires IsNoise(line)
    ensures EntriesOf([line]) == []
  {
    assert [line][1..] == [];
    if IsBlank(line) { BlankIsNoEntry(line); }
    hide EntryOf, ToLower, Trim;
  }

  lemma BlankIsNoEntry(line: string)
    requires IsBlank(line)
    ensures EntryOf(line) == ""
  {
    TrimOfBlank(line);
    assert Trim("") == "";
  }

  lemma {:induction false} TrimOfBlank(line: string)
    requires IsBlank(line)
    ensures Trim(line) == ""
  {
    TrimStartOfBlank(line);
  }

  lemma {:induction false} TrimStartOfBlank(line: string)
    requires IsBlank(line)
    ensures TrimStart(line) == ""
  {
    hide IsSpace;
    if line != "" { TrimStartOfBlank(line[1..]); }
  }

  /** The comment's text does not end before its end. */
  predicate IsOpen(comment: string, end: string) {
    forall i :: 0 <= i < |comment| ==> !StartsWith((comment + end)[i..], "-->")
  }

  lemma {:induction false} CommentEnds(comment: string, end: string, rest: string)
    requires IsOpen(comment, end) && (end == "-->" || (end == "" && rest == ""))
    ensures AfterCommentEnd(comment + end + rest) == rest
    decreases |comment|
  {
    hide StartsWith;
    var text := comment + end + rest;
    if comment == "" {
      assert text == end + rest;
      EndIsFound(end, rest);
    } else {
      assert !StartsWith((comment + end)[0..], "-->");
      NotYetEnded(comment + end, rest);
      assert text[1..] == comment[1..] + end + rest;
      forall i | 0 <= i < |comment[1..]| ensures !StartsWith((comment[1..] + end)[i..], "-->") {
        assert (comment[1..] + end)[i..] == (comment + end)[i + 1..];
        assert !StartsWith((comment + end)[i + 1..], "-->");
      }
      CommentEnds(comment[1..], end, rest);
    }
  }

  lemma EndIsFound(end: string, rest: string)
    requires end == "-->" || (end == "" && rest == "")
    ensures AfterCommentEnd(end + rest) == rest
  {
    if end == "-->" { assert (end + rest)[..3] == "-->" && (end + rest)[3..] == rest; }
  }

  /** No end begins where the text, closed or not, has none: what follows it cannot complete one. */
  lemma NotYetEnded(text: string, rest: string)
    requires text != "" && !StartsWith(text, "-->") && (|text| >= 3 || rest == "")
    ensures AfterCommentEnd(text + rest) == AfterCommentEnd((text + rest)[1..])
  {
    if |text| >= 3 { assert (text + rest)[..3] == text[..3]; } else { assert text + rest == text; }
  }

  lemma {:induction false} FrontIsKept(before: string, text: string)
    requires '<' !in before
    ensures WithoutComments(before + text) == before + WithoutComments(text)
    decreases |before|
  {
    hide WithoutComments;
    if before == "" {
      assert before + text == text;
    } else {
      FrontIsKept(before[1..], text);
      PlainCharacter(before[0], before[1..] + text);
      assert before + text == [before[0]] + (before[1..] + text);
      assert [before[0]] + (before[1..] + WithoutComments(text)) == before + WithoutComments(text);
    }
  }

  /** A comment of the section is read over. */
  lemma CommentIsRemoved(before: string, comment: string, rest: string)
    requires '<' !in before && IsOpen(comment, "-->")
    ensures WithoutComments(before + ("<!--" + (comment + "-->" + rest))) == before + WithoutComments(rest)
  {
    hide WithoutComments, AfterCommentEnd, IsOpen;
    FrontIsKept(before, "<!--" + (comment + "-->" + rest));
    FirstComment(comment + "-->" + rest);
    CommentEnds(comment, "-->", rest);
  }

  /** One that is not closed hides everything behind it. */
  lemma OpenCommentHidesTheRest(before: string, comment: string)
    requires '<' !in before && IsOpen(comment, "")
    ensures WithoutComments(before + ("<!--" + comment)) == before
  {
    CommentEnds(comment, "", "");
    assert comment + "" + "" == comment && WithoutComments("") == "";
    hide WithoutComments, AfterCommentEnd, IsOpen;
    FrontIsKept(before, "<!--" + comment);
    FirstComment(comment);
    assert before + "" == before;
  }

  lemma FirstComment(text: string)
    ensures WithoutComments("<!--" + text) == WithoutComments(AfterCommentEnd(text))
  {
    assert ("<!--" + text)[..4] == "<!--" && ("<!--" + text)[4..] == text;
  }

  lemma PlainCharacter(c: char, text: string)
    requires c != '<'
    ensures WithoutComments([c] + text) == [c] + WithoutComments(text)
  {
    var whole := [c] + text;
    assert |whole| >= 4 ==> whole[..4][0] == c;
    assert "<!--"[0] == '<';
    assert whole[1..] == text;
  }
}
