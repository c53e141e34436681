/**
 * The guard of a fix round: suppressions are counted on normalised lines, a round is judged by the net count of each
 * pattern, and a repository can add patterns but not weaken the framework's. Lower-casing is that of ASCII letters.
 */
module FixRoundGuard {
  import opened JsStrings

  // ---------------------------------------------------------------- normalising and counting

  function ToLower(text: string): string {
    if text == "" then "" else [Lower(text[0])] + ToLower(text[1..])
  }

  function Normalise(text: string): string {
    if text == "" then ""
    else (if IsSpace(text[0]) then "" else [Lower(text[0])]) + Normalise(text[1..])
  }

  /** `line.split(needle)`: the line is cut at each occurrence found from the left, and the search goes on behind it. */
  function SplitBy(line: string, needle: string): (parts: seq<string>)
    requires needle != ""
    ensures |parts| > 0
    decreases |line|
  {
    if |line| < |needle| then [line]
    else if StartsWith(line, needle) then [""] + SplitBy(line[|needle|..], needle)
    else var rest := SplitBy(line[1..], needle); [[line[0]] + rest[0]] + rest[1..]
  }

  function CountIn(line: string, needle: string): nat
    requires needle != ""
  {
    |SplitBy(line, needle)| - 1
  }

  /** Occurrences of the needle at ascending places, none of them reaching into the next. */
  predicate IsPacking(line: string, needle: string, places: seq<nat>) {
    && (forall i :: 0 <= i < |places| ==> places[i] + |needle| <= |line| && line[places[i]..places[i] + |needle|] == needle)
    && (forall i :: 0 < i < |places| ==> places[i - 1] + |needle| <= places[i])
  }

  function Shifted(places: seq<nat>, d: int): (r: seq<nat>)
    requires forall i :: 0 <= i < |places| ==> places[i] + d >= 0
    ensures |r| == |places|
  {
    seq(|places|, i requires 0 <= i < |places| => places[i] + d)
  }

  lemma {:induction false} PlacesAscend(line: string, needle: string, places: seq<nat>, i: nat)
    requires IsPacking(line, needle, places) && i < |places|
    ensures places[0] <= places[i]
  {
    if i > 0 { PlacesAscend(line, needle, places, i - 1); }
  }

  lemma PackingBehind(line: string, needle: string, places: seq<nat>, n: int)
    requires 0 <= n <= |line| && IsPacking(line, needle, places)
    requires places != [] ==> n <= places[0]
    ensures forall i :: 0 <= i < |places| ==> places[i] - n >= 0
    ensures IsPacking(line[n..], needle, Shifted(places, -n))
  {
    forall i | 0 <= i < |places| ensures places[i] >= n {
      PlacesAscend(line, needle, places, i);
    }
    var shifted := Shifted(places, -n);
    forall i | 0 <= i < |shifted| ensures line[n..][shifted[i]..shifted[i] + |needle|] == needle {
      assert line[n..][shifted[i]..shifted[i] + |needle|] == line[places[i]..places[i] + |needle|];
    }
  }

  lemma FirstPlace(line: string, needle: string, places: seq<nat>)
    requires IsPacking(line, needle, places) && places != []
    ensures |needle| <= |line|
    ensures places[0] == 0 ==> StartsWith(line, needle)
    ensures IsPacking(line, needle, places[1..]) && (|places| > 1 ==> |needle| <= places[1])
  {
    assert line[places[0]..places[0] + |needle|] == needle;
    assert places[0] == 0 ==> line[places[0]..places[0] + |needle|] == line[..|needle|];
  }

  /** Where a search from the left goes on behind the start of a line. */
  function NextStart(line: string, needle: string): nat {
    if StartsWith(line, needle) then |needle| else 1
  }

  lemma CountUnfolds(line: string, needle: string)
    requires needle != "" && |needle| <= |line|
    ensures CountIn(line, needle) == CountIn(line[NextStart(line, needle)..], needle) + if StartsWith(line, needle) then 1 else 0
  {
    hide StartsWith;
  }

  /** The places of a packing that lie behind the next start: all of them, or all but the first. */
  lemma PlacesBehind(line: string, needle: string, places: seq<nat>) returns (rest: seq<nat>)
    requires needle != "" && IsPacking(line, needle, places) && places != []
    ensures |needle| <= |line| && IsPacking(line[NextStart(line, needle)..], needle, rest)
    ensures |places| <= |rest| + if StartsWith(line, needle) then 1 else 0
  {
    FirstPlace(line, needle, places);
    hide IsPacking;
    var n: int := NextStart(line, needle);
    var behind := if places[0] < n then places[1..] else places;
    PackingBehind(line, needle, behind, n);
    rest := Shifted(behind, -n);
  }

  /** No choice of disjoint occurrences beats the count. */
  lemma {:induction false} CountIsAnUpperBound(line: string, needle: string, places: seq<nat>)
    requires needle != "" && IsPacking(line, needle, places)
    ensures |places| <= CountIn(line, needle)
    decreases |line|
  {
    if places != [] {
      var rest := PlacesBehind(line, needle, places);
      CountUnfolds(line, needle);
      hide IsPacking, CountIn, StartsWith;
      CountIsAnUpperBound(line[NextStart(line, needle)..], needle, rest);
    }
  }

  lemma PackingBefore(line: string, needle: string, places: seq<nat>, n: nat)
    requires n <= |line| && IsPacking(line[n..], needle, places)
    ensures IsPacking(line, needle, Shifted(places, n))
  {
    var shifted := Shifted(places, n);
    forall i | 0 <= i < |shifted| ensures line[shifted[i]..shifted[i] + |needle|] == needle {
      assert line[n..][places[i]..places[i] + |needle|] == line[shifted[i]..shifted[i] + |needle|];
    }
  }

  /** Some choice reaches it. */
  lemma {:induction false} CountIsReached(line: string, needle: string) returns (places: seq<nat>)
    requires needle != ""
    ensures IsPacking(line, needle, places) && |places| == CountIn(line, needle)
    decreases |line|
  {
    if |line| < |needle| {
      places := [];
    } else {
      CountUnfolds(line, needle);
      hide IsPacking, CountIn, StartsWith;
      var rest := CountIsReached(line[NextStart(line, needle)..], needle);
      places := PackingFrom(line, needle, rest);
    }
  }

  /** A packing behind the next start, with the occurrence the line begins with, if it does. */
  lemma PackingFrom(line: string, needle: string, rest: seq<nat>) returns (places: seq<nat>)
    requires needle != "" && |needle| <= |line| && IsPacking(line[NextStart(line, needle)..], needle, rest)
    ensures IsPacking(line, needle, places) && |places| == |rest| + if StartsWith(line, needle) then 1 else 0
  {
    PackingBefore(line, needle, rest, NextStart(line, needle));
    places := Shifted(rest, NextStart(line, needle));
    if StartsWith(line, needle) {
      places := [0] + places;
      assert line[0..0 + |needle|] == line[..|needle|];
    }
  }

  /** The split count of a line is the greatest number of disjoint occurrences in it. */
  lemma CountIsTheMaximum(line: string, needle: string)
    requires needle != ""
    ensures exists places :: IsPacking(line, needle, places) && |places| == CountIn(line, needle)
    ensures forall places :: IsPacking(line, needle, places) ==> |places| <= CountIn(line, needle)
  {
    var places := CountIsReached(line, needle);
    forall others | IsPacking(line, needle, others) ensures |others| <= CountIn(line, needle) {
      CountIsAnUpperBound(line, needle, others);
    }
  }

  function SumOf(lines: seq<string>, needle: string): nat
    requires needle != ""
  {
    if lines == [] then 0 else CountIn(Normalise(lines[0]), needle) + SumOf(lines[1..], needle)
  }

  function Occurrences(lines: seq<string>, pattern: string): nat {
    var needle := Normalise(pattern);
    if needle == "" then 0 else SumOf(lines, needle)
  }

  // ---------------------------------------------------------------- the configuration

  datatype Language = Javascript | Python | Go | Rust | Ruby | Jvm

  datatype Source = Framework(language: Language) | Repository

  datatype GuardPattern = GuardPattern(pattern: string, source: Source)

  function FrameworkTable(language: Language): seq<string> {
    match language
    case Javascript => ["eslint-disable", "@ts-ignore", "@ts-expect-error", "@ts-nocheck", "biome-ignore", "oxlint-disable",
                        "tslint:disable", "jshint ignore", "deno-lint-ignore", "prettier-ignore"]
    case Python => ["noqa", "# type: ignore", "# pyright: ignore", "# pylint: disable", "# mypy: ignore-errors", "# nosec",
                    "# pyre-ignore", "# pyre-fixme", "# pytype: disable"]
    case Go => ["//nolint", "//lint:ignore", "//lint:file-ignore", "#nosec", "//go:build ignore", "// +build ignore"]
    case Rust => ["#[allow(", "#![allow(", "#[expect(", "#![expect("]
    case Ruby => ["rubocop:disable", "rubocop:todo", "standard:disable", "steep:ignore", "# typed: ignore"]
    case Jvm => ["@Suppress(", "@file:Suppress(", "@SuppressWarnings(", "@SuppressLint(", "//noinspection", "ktlint-disable",
                 "CHECKSTYLE:OFF"]
  }

  /** `text.replace(/<!--[\s\S]*?(?:-->|$)/g, '')` */
  function WithoutComments(text: string): string
    decreases |text|
  {
    if text == "" then ""
    else if StartsWith(text, "<!--") then WithoutComments(AfterCommentEnd(text[4..]))
    else [text[0]] + WithoutComments(text[1..])
  }

  function AfterCommentEnd(text: string): (rest: string)
    ensures |rest| <= |text|
  {
    if text == "" then "" else if StartsWith(text, "-->") then text[3..] else AfterCommentEnd(text[1..])
  }

  function WithoutLeading(text: string, c: char): string {
    if text != "" && text[0] == c then WithoutLeading(text[1..], c) else text
  }

  function WithoutTrailing(text: string, c: char): string {
    if text != "" && Last(text) == c then WithoutTrailing(text[..|text| - 1], c) else text
  }

  predicate IsFence(line: string) {
    StartsWith(line, "```") || StartsWith(line, "~~~")
  }

  function WithoutListMarker(line: string): string {
    if line != "" && line[0] in "-*+" && (|line| == 1 || IsSpace(line[1])) then TrimStart(line[1..]) else line
  }

  function EntryOf(line: string): string {
    Trim(WithoutTrailing(WithoutLeading(WithoutListMarker(Trim(line)), '`'), '`'))
  }

  function EntriesOf(lines: seq<string>): seq<string> {
    if lines == [] then []
    else
      var entry := EntryOf(lines[0]);
      (if IsFence(Trim(lines[0])) || entry == "" || ToLower(entry) == "n/a" then [] else [entry]) + EntriesOf(lines[1..])
  }

  function Additions(entries: seq<string>): seq<string> {
    if entries == [] then [] else (if StartsWith(entries[0], "!") then [] else [entries[0]]) + Additions(entries[1..])
  }

  function ParseAdditions(section: string): seq<string> {
    Additions(EntriesOf(Split(WithoutComments(section), '\n')))
  }

  function PatternsFrom(patterns: seq<string>, source: Source): seq<GuardPattern> {
    if patterns == [] then [] else [GuardPattern(patterns[0], source)] + PatternsFrom(patterns[1..], source)
  }

  /** Each language once, where it comes first. */
  function FrameworkPatterns(languages: seq<Language>, seen: set<Language>): seq<GuardPattern> {
    if languages == [] then []
    else
      (if languages[0] in seen then [] else PatternsFrom(FrameworkTable(languages[0]), Framework(languages[0])))
      + FrameworkPatterns(languages[1..], seen + {languages[0]})
  }

  /** The first of the patterns that read the same is kept; one that reads as nothing is dropped. */
  function Distinct(patterns: seq<GuardPattern>, seen: set<string>): seq<GuardPattern> {
    if patterns == [] then []
    else
      var key := Normalise(patterns[0].pattern);
      if key == "" || key in seen then Distinct(patterns[1..], seen)
      else [patterns[0]] + Distinct(patterns[1..], seen + {key})
  }

  method WithoutDuplicates(patterns: seq<GuardPattern>) returns (kept: seq<GuardPattern>)
    ensures kept == Distinct(patterns, {})
  {
    kept := [];
    var seen: set<string> := {};
    for i := 0 to |patterns|
      invariant kept + Distinct(patterns[i..], seen) == Distinct(patterns, {})
    {
      assert patterns[i..][1..] == patterns[i + 1..];
      var key := Normalise(patterns[i].pattern);
      if key == "" || key in seen { continue; }
      seen := seen + {key};
      kept := kept + [patterns[i]];
    }
  }

  function BuildPatterns(languages: seq<Language>, section: string): seq<GuardPattern> {
    Distinct(FrameworkPatterns(languages, {}) + PatternsFrom(ParseAdditions(section), Repository), {})
  }

  // ---------------------------------------------------------------- the verdict

  datatype DiffFile = DiffFile(oldPath: Option<string>, newPath: Option<string>, addedLines: seq<string>, removedLines: seq<string>)

  datatype Rejection = Suppression(path: string, pattern: GuardPattern) | ProtectedPath(path: string, category: string)

  /** The category of the first protected-path rule that a path matches. */
  type PathRules = string -> Option<string>

  function TouchedPaths(file: DiffFile): seq<string> {
    (if file.oldPath.Some? then [file.oldPath.value] else [])
    + (if file.newPath.Some? && file.newPath != file.oldPath then [file.newPath.value] else [])
  }

  function PathRejections(paths: seq<string>, rules: PathRules): seq<Rejection> {
    if paths == [] then []
    else
      (match rules(paths[0]) case Some(category) => [ProtectedPath(paths[0], category)] case None => [])
      + PathRejections(paths[1..], rules)
  }

  function PathOf(file: DiffFile): string {
    match (file.newPath, file.oldPath)
    case (Some(path), _) => path
    case (None, Some(path)) => path
    case (None, None) => "(unknown file)"
  }

  predicate AddsMore(file: DiffFile, pattern: string) {
    Occurrences(file.addedLines, pattern) > Occurrences(file.removedLines, pattern)
  }

  function SuppressionRejections(file: DiffFile, patterns: seq<GuardPattern>): seq<Rejection> {
    if patterns == [] then []
    else
      (if AddsMore(file, patterns[0].pattern) then [Suppression(PathOf(file), patterns[0])] else [])
      + SuppressionRejections(file, patterns[1..])
  }

  /** The reasons to reject a round; it is accepted when there are none. */
  function Reasons(files: seq<DiffFile>, patterns: seq<GuardPattern>, rules: PathRules): seq<Rejection>
    decreases |files|
  {
    if files == [] then []
    else PathRejections(TouchedPaths(files[0]), rules) + SuppressionRejections(files[0], patterns) + Reasons(files[1..], patterns, rules)
  }

  predicate Accepted(files: seq<DiffFile>, patterns: seq<GuardPattern>, rules: PathRules) {
    Reasons(files, patterns, rules) == []
  }

  /** Why a round is rejected for one file: a protected path it touches, or a configured pattern it adds to, on balance. */
  predicate IsReason(file: DiffFile, patterns: seq<GuardPattern>, rules: PathRules, r: Rejection) {
    match r
    case Suppression(path, p) =>
      && p in patterns && Occurrences(file.addedLines, p.pattern) > Occurrences(file.removedLines, p.pattern)
      && path == if file.newPath.Some? then file.newPath.value else if file.oldPath.Some? then file.oldPath.value else "(unknown file)"
    case ProtectedPath(path, category) => Some(path) in {file.oldPath, file.newPath} && rules(path) == Some(category)
  }

  lemma {:induction false} PathReasonIff(paths: seq<string>, rules: PathRules, r: Rejection)
    ensures r in PathRejections(paths, rules) <==> r.ProtectedPath? && r.path in paths && rules(r.path) == Some(r.category)
  {
    if paths != [] { PathReasonIff(paths[1..], rules, r); }
  }

  lemma {:induction false} SuppressionReasonIff(file: DiffFile, patterns: seq<GuardPattern>, r: Rejection)
    ensures r in SuppressionRejections(file, patterns) <==>
            r.Suppression? && r.path == PathOf(file) && r.pattern in patterns && AddsMore(file, r.pattern.pattern)
  {
    hide PathOf, AddsMore;
    if patterns != [] { SuppressionReasonIff(file, patterns[1..], r); }
  }

  /** A reason is given exactly when some file gives it, so a round is accepted exactly when no file gives any. */
  lemma {:induction false} ReasonIff(files: seq<DiffFile>, patterns: seq<GuardPattern>, rules: PathRules, r: Rejection)
    ensures r in Reasons(files, patterns, rules) <==> exists i :: 0 <= i < |files| && IsReason(files[i], patterns, rules, r)
    decreases |files|
  {
    if files != [] {
      PathReasonIff(TouchedPaths(files[0]), rules, r);
      SuppressionReasonIff(files[0], patterns, r);
      ReasonIff(files[1..], patterns, rules, r);
      assert IsReason(files[0], patterns, rules, r) <==>
             r in PathRejections(TouchedPaths(files[0]), rules) || r in SuppressionRejections(files[0], patterns);
      hide IsReason, PathRejections, SuppressionRejections;
      if i :| 0 <= i < |files[1..]| && IsReason(files[1..][i], patterns, rules, r) {
        assert IsReason(files[i + 1], patterns, rules, r);
      }
      if i :| 0 <= i < |files| && IsReason(files[i], patterns, rules, r) {
        assert i > 0 ==> IsReason(files[1..][i - 1], patterns, rules, r);
      }
    }
  }

  lemma {:induction false} FromPatternsIff(patterns: seq<string>, source: Source, p: GuardPattern)
    ensures p in PatternsFrom(patterns, source) <==> p.pattern in patterns && p.source == source
  {
    if patterns != [] { FromPatternsIff(patterns[1..], source, p); }
  }

  /** The framework's part is the tables of the languages, and nothing else. */
  lemma {:induction false} FrameworkPatternIff(languages: seq<Language>, seen: set<Language>, p: GuardPattern)
    ensures p in FrameworkPatterns(languages, seen) <==>
            p.source.Framework? && p.source.language in languages && p.source.language !in seen
            && p.pattern in FrameworkTable(p.source.language)
  {
    hide FrameworkTable;
    if languages != [] {
      FromPatternsIff(FrameworkTable(languages[0]), Framework(languages[0]), p);
      FrameworkPatternIff(languages[1..], seen + {languages[0]}, p);
    }
  }

  // ---------------------------------------------------------------- what a repository writes is what is configured

  /** A pattern that nothing in the syntax of the section takes apart. */
  predicate IsPlain(p: string) {
    && p != "" && !IsSpace(p[0]) && !IsSpace(Last(p)) && p[0] != '`' && Last(p) != '`'
    && '\n' !in p && '<' !in p && ToLower(p) != "n/a"
  }

  function ItemOf(p: string): string {
    "- `" + p + "`"
  }

  lemma {:induction false} TrimStartOf(s: string)
    requires s != "" && !IsSpace(s[0])
    ensures TrimStart(s) == s
  {}

  lemma TrimOf(s: string)
    requires s != "" && !IsSpace(s[0]) && !IsSpace(Last(s))
    ensures Trim(s) == s
  {
    TrimStartOf(s);
  }

  lemma ItemIsTrimmed(p: string)
    requires IsPlain(p)
    ensures Trim(ItemOf(p)) == ItemOf(p) && !IsFence(ItemOf(p))
  {
    var item := ItemOf(p);
    assert |item| == |p| + 4 && item[0] == '-' && Last(item) == '`';
    TrimOf(item);
    hide Trim;
    assert item[..3][0] == '-';
  }

  lemma MarkerIsRemoved(p: string)
    requires IsPlain(p)
    ensures WithoutListMarker(ItemOf(p)) == "`" + p + "`"
  {
    var item, quoted := ItemOf(p), "`" + p + "`";
    assert item[0] == '-' && item[1] == ' ';
    assert item[1..] == " " + quoted;
    assert (" " + quoted)[1..] == quoted && quoted[0] == '`';
    TrimStartOf(quoted);
    assert TrimStart(" " + quoted) == TrimStart(quoted);
  }

  lemma QuotesAreRemoved(p: string)
    requires IsPlain(p)
    ensures WithoutTrailing(WithoutLeading("`" + p + "`", '`'), '`') == p
  {
    var quoted := "`" + p + "`";
    assert quoted[0] == '`' && quoted[1..] == p + "`" && (p + "`")[0] == p[0];
    assert WithoutLeading(quoted, '`') == WithoutLeading(p + "`", '`') == p + "`";
    assert (p + "`")[..|p|] == p && Last(p + "`") == '`';
    assert WithoutTrailing(p + "`", '`') == WithoutTrailing(p, '`') == p;
  }

  lemma ItemReadsAs(p: string)
    requires IsPlain(p)
    ensures EntryOf(ItemOf(p)) == p && !IsFence(Trim(ItemOf(p)))
  {
    ItemIsTrimmed(p);
    MarkerIsRemoved(p);
    QuotesAreRemoved(p);
    TrimOf(p);
    hide ItemOf, Trim, WithoutListMarker, WithoutLeading, WithoutTrailing, IsFence;
  }

  function ItemsOf(patterns: seq<string>): seq<string> {
    if patterns == [] then [] else [ItemOf(patterns[0])] + ItemsOf(patterns[1..])
  }

  ghost predicate AllPlain(patterns: seq<string>) {
    forall i :: 0 <= i < |patterns| ==> IsPlain(patterns[i])
  }

  lemma {:induction false} EntriesOfItems(patterns: seq<string>)
    requires AllPlain(patterns)
    ensures EntriesOf(ItemsOf(patterns)) == patterns
  {
    hide ItemOf, IsPlain;
    if patterns != [] {
      hide EntriesOf;
      EntriesOfItem(patterns[0], ItemsOf(patterns[1..]));
      EntriesOfItems(patterns[1..]);
      assert patterns == [patterns[0]] + patterns[1..];
    }
  }

  lemma {:induction false} ItemsAreLines(patterns: seq<string>, c: char)
    requires AllPlain(patterns) && c in ['\n', '<']
    ensures Without(ItemsOf(patterns), c)
  {
    if patterns != [] {
      assert c !in patterns[0];
      hide IsPlain;
      ItemsAreLines(patterns[1..], c);
    }
  }

  lemma EntriesOfItem(p: string, rest: seq<string>)
    requires IsPlain(p)
    ensures EntriesOf([ItemOf(p)] + rest) == [p] + EntriesOf(rest)
  {
    ItemReadsAs(p);
    hide EntryOf, IsFence, Trim;
    assert ([ItemOf(p)] + rest)[1..] == rest;
  }

  lemma {:induction false} NoCommentToRemove(text: string)
    requires '<' !in text
    ensures WithoutComments(text) == text
  {
    if text != "" {
      assert "<!--"[0] == '<';
      assert |text| >= 4 ==> text[..4][0] == text[0];
      NoCommentToRemove(text[1..]);
    }
  }

  lemma {:induction false} JoinHasNo(parts: seq<string>, c: char)
    requires Without(parts, c) && c != '\n'
    ensures c !in Join(parts, "\n")
  {
    if |parts| > 1 { JoinHasNo(parts[1..], c); }
  }

  /** A list of plain patterns, each an item in backticks, is read back as that list, less the ones that begin with `!`. */
  lemma {:induction false} ListedPatternsAreAdded(patterns: seq<string>)
    requires AllPlain(patterns)
    ensures ParseAdditions(Join(ItemsOf(patterns), "\n")) == Additions(patterns)
  {
    var items := ItemsOf(patterns);
    EntriesOfItems(patterns);
    ItemsAreLines(patterns, '<');
    ItemsAreLines(patterns, '\n');
    JoinHasNo(items, '<');
    NoCommentToRemove(Join(items, "\n"));
    hide WithoutComments, EntriesOf, Additions;
    if items == [] {
      assert Split("", '\n') == [""];
      NoEntry();
    } else {
      SplitOfJoin(items, '\n');
    }
  }

  lemma NoEntry()
    ensures EntriesOf([""]) == EntriesOf([])
  {}

  // ---------------------------------------------------------------- a repository cannot weaken the guard

  lemma {:induction false} DistinctPrefix(a: seq<GuardPattern>, b: seq<GuardPattern>, seen: set<string>)
    ensures Distinct(a, seen) <= Distinct(a + b, seen)
  {
    if a != [] {
      assert (a + b)[1..] == a[1..] + b;
      var key := Normalise(a[0].pattern);
      DistinctPrefix(a[1..], b, if key == "" || key in seen then seen else seen + {key});
    }
  }

  lemma {:induction false} MorePatternsMoreReasons(file: DiffFile, few: seq<GuardPattern>, many: seq<GuardPattern>, r: Rejection)
    requires few <= many && r in SuppressionRejections(file, few)
    ensures r in SuppressionRejections(file, many)
  {
    assert many[0] == few[0];
    if r in SuppressionRejections(file, few[1..]) { MorePatternsMoreReasons(file, few[1..], many[1..], r); }
  }

  /** Every reason the framework's own patterns give stands under every `## Suppression Patterns` text. */
  lemma {:induction false} FrameworkReasonsStand(
      files: seq<DiffFile>, languages: seq<Language>, section: string, rules: PathRules, r: Rejection)
    requires r in Reasons(files, BuildPatterns(languages, ""), rules)
    ensures r in Reasons(files, BuildPatterns(languages, section), rules)
    ensures !Accepted(files, BuildPatterns(languages, section), rules)
    decreases |files|
  {
    var few, many := BuildPatterns(languages, ""), BuildPatterns(languages, section);
    FrameworkOnlyIsAPrefix(languages, section);
    hide BuildPatterns;
    if r in SuppressionRejections(files[0], few) {
      MorePatternsMoreReasons(files[0], few, many, r);
    } else if r in Reasons(files[1..], few, rules) {
      FrameworkReasonsStand(files[1..], languages, section, rules, r);
    }
  }

  lemma FrameworkOnlyIsAPrefix(languages: seq<Language>, section: string)
    ensures BuildPatterns(languages, "") <= BuildPatterns(languages, section)
  {
    var framework, repository := FrameworkPatterns(languages, {}), PatternsFrom(ParseAdditions(section), Repository);
    assert ParseAdditions("") == [] by {
      assert Split("", '\n') == [""];
      assert EntriesOf([""]) == EntriesOf([]) == [];
    }
    assert framework + PatternsFrom([], Repository) == framework;
    DistinctPrefix(framework, repository, {});
  }

  /** An entry that starts with `!` never becomes a pattern. */
  lemma {:induction false} RemovalsAreNotAdded(entries: seq<string>, entry: string)
    ensures entry in Additions(entries) <==> entry in entries && !StartsWith(entry, "!")
  {
    if entries != [] { RemovalsAreNotAdded(entries[1..], entry); }
  }

  // ---------------------------------------------------------------- counts over accepted rounds

  lemma {:induction false} SumOfConcat(a: seq<string>, b: seq<string>, needle: string)
    requires needle != ""
    ensures SumOf(a + b, needle) == SumOf(a, needle) + SumOf(b, needle)
  {
    if a == [] {
      assert a + b == b;
    } else {
      assert (a + b)[1..] == a[1..] + b;
      SumOfConcat(a[1..], b, needle);
    }
  }

  /** The count depends on which lines there are, not on their order. */
  lemma {:induction false} SumIsOrderless(a: seq<string>, b: seq<string>, needle: string)
    requires needle != "" && multiset(a) == multiset(b)
    ensures SumOf(a, needle) == SumOf(b, needle)
    decreases |a|
  {
    if a == [] {
      assert |multiset(b)| == 0;
    } else {
      var k := PlaceOfFirst(a, b);
      SumWithout(b, k, needle);
      hide CountIn;
      SumIsOrderless(a[1..], b[..k] + b[k + 1..], needle);
    }
  }

  lemma PlaceOfFirst(a: seq<string>, b: seq<string>) returns (k: nat)
    requires a != [] && multiset(a) == multiset(b)
    ensures k < |b| && b[k] == a[0] && multiset(a[1..]) == multiset(b[..k] + b[k + 1..])
  {
    WithoutFirst(a);
    k := PlaceOf(a[0], b);
    WithoutOne(b, k);
  }

  lemma WithoutFirst(lines: seq<string>)
    requires lines != []
    ensures lines[0] in multiset(lines) && multiset(lines[1..]) == multiset(lines) - multiset{lines[0]}
  {
    assert lines == [lines[0]] + lines[1..];
  }

  lemma PlaceOf(line: string, lines: seq<string>) returns (k: nat)
    requires line in multiset(lines)
    ensures k < |lines| && lines[k] == line
  {
    k :| 0 <= k < |lines| && lines[k] == line;
  }

  lemma WithoutOne(lines: seq<string>, k: nat)
    requires k < |lines|
    ensures multiset(lines[..k] + lines[k + 1..]) == multiset(lines) - multiset{lines[k]}
  {
    assert lines == lines[..k] + ([lines[k]] + lines[k + 1..]);
  }

  lemma SumWithout(lines: seq<string>, k: nat, needle: string)
    requires needle != "" && k < |lines|
    ensures SumOf(lines, needle) == CountIn(Normalise(lines[k]), needle) + SumOf(lines[..k] + lines[k + 1..], needle)
  {
    assert lines == lines[..k] + ([lines[k]] + lines[k + 1..]);
    SumOfConcat(lines[..k], lines[k + 1..], needle);
    SumOfConcat(lines[..k], [lines[k]] + lines[k + 1..], needle);
    assert ([lines[k]] + lines[k + 1..])[1..] == lines[k + 1..];
  }

  /** The round turns the file's lines into others: the removed ones go, the added ones come. */
  ghost predicate Changes(before: seq<string>, file: DiffFile, after: seq<string>) {
    multiset(after) + multiset(file.removedLines) == multiset(before) + multiset(file.addedLines)
  }

  lemma CountOfChange(before: seq<string>, file: DiffFile, after: seq<string>, pattern: string)
    requires Changes(before, file, after)
    ensures Occurrences(after, pattern) + Occurrences(file.removedLines, pattern) ==
            Occurrences(before, pattern) + Occurrences(file.addedLines, pattern)
  {
    var needle := Normalise(pattern);
    if needle != "" {
      assert multiset(after + file.removedLines) == multiset(before + file.addedLines);
      SumIsOrderless(after + file.removedLines, before + file.addedLines, needle);
      SumOfConcat(after, file.removedLines, needle);
      SumOfConcat(before, file.addedLines, needle);
    }
  }

  lemma {:induction false} NoReasonNoExcess(file: DiffFile, patterns: seq<GuardPattern>, p: GuardPattern)
    requires SuppressionRejections(file, patterns) == [] && p in patterns
    ensures !AddsMore(file, p.pattern)
  {
    if patterns[0] != p { NoReasonNoExcess(file, patterns[1..], p); }
  }

  lemma {:induction false} KeyIsKept(patterns: seq<GuardPattern>, seen: set<string>, p: GuardPattern)
    requires p in patterns && Normalise(p.pattern) != "" && Normalise(p.pattern) !in seen
    ensures exists q :: q in Distinct(patterns, seen) && Normalise(q.pattern) == Normalise(p.pattern)
  {
    var key := Normalise(patterns[0].pattern);
    if key == "" || key in seen {
      KeyIsKept(patterns[1..], seen, p);
    } else if key == Normalise(p.pattern) {
      assert patterns[0] in Distinct(patterns, seen);
    } else {
      KeyIsKept(patterns[1..], seen + {key}, p);
      var q :| q in Distinct(patterns[1..], seen + {key}) && Normalise(q.pattern) == Normalise(p.pattern);
      assert q in Distinct(patterns, seen);
    }
  }

  /** One change of one file, and the configuration it was judged by: the repository may edit its section between rounds. */
  datatype Round = Round(file: DiffFile, section: string)

  ghost predicate IsHistory(states: seq<seq<string>>, rounds: seq<Round>, languages: seq<Language>, rules: PathRules) {
    && |states| == |rounds| + 1
    && forall i :: 0 <= i < |rounds| ==>
         && Changes(states[i], rounds[i].file, states[i + 1])
         && Accepted([rounds[i].file], BuildPatterns(languages, rounds[i].section), rules)
  }

  predicate AlwaysConfigured(pattern: string, rounds: seq<Round>, languages: seq<Language>) {
    forall i :: 0 <= i < |rounds| ==> IsConfigured(pattern, languages, rounds[i].section)
  }

  /** The pattern is the framework's or the section's; a duplicate counts as the pattern it reads the same as. */
  predicate IsConfigured(pattern: string, languages: seq<Language>, section: string) {
    exists p :: p in FrameworkPatterns(languages, {}) + PatternsFrom(ParseAdditions(section), Repository) && p.pattern == pattern
  }

  lemma AcceptedRoundDoesNotRaise(
      before: seq<string>, round: Round, after: seq<string>, languages: seq<Language>, rules: PathRules, pattern: string)
    requires Changes(before, round.file, after)
    requires Accepted([round.file], BuildPatterns(languages, round.section), rules)
    requires IsConfigured(pattern, languages, round.section)
    ensures Occurrences(after, pattern) <= Occurrences(before, pattern)
  {
    var all := FrameworkPatterns(languages, {}) + PatternsFrom(ParseAdditions(round.section), Repository);
    var p :| p in all && p.pattern == pattern;
    CountOfChange(before, round.file, after, pattern);
    if Normalise(pattern) != "" {
      KeyIsKept(all, {}, p);
      var q :| q in Distinct(all, {}) && Normalise(q.pattern) == Normalise(pattern);
      assert SuppressionRejections(round.file, BuildPatterns(languages, round.section)) == [];
      NoReasonNoExcess(round.file, BuildPatterns(languages, round.section), q);
    }
  }

  lemma HistoryHead(states: seq<seq<string>>, rounds: seq<Round>, languages: seq<Language>, rules: PathRules)
    requires IsHistory(states, rounds, languages, rules) && rounds != []
    ensures |states| > 1 && Changes(states[0], rounds[0].file, states[1])
    ensures Accepted([rounds[0].file], BuildPatterns(languages, rounds[0].section), rules)
  {
    hide BuildPatterns, Accepted, Changes;
  }

  lemma HistoryTail(states: seq<seq<string>>, rounds: seq<Round>, languages: seq<Language>, rules: PathRules)
    requires IsHistory(states, rounds, languages, rules) && rounds != []
    ensures IsHistory(states[1..], rounds[1..], languages, rules)
  {
    hide BuildPatterns, Accepted, Changes;
    forall i | 0 <= i < |rounds[1..]|
      ensures Changes(states[1..][i], rounds[1..][i].file, states[1..][i + 1])
      ensures Accepted([rounds[1..][i].file], BuildPatterns(languages, rounds[1..][i].section), rules)
    {
      assert rounds[1..][i] == rounds[i + 1] && states[1..][i] == states[i + 1] && states[1..][i + 1] == states[i + 2];
    }
  }

  /** Over any sequence of accepted rounds no configured suppression of a file ever stands there more often than at first. */
  lemma {:induction false} CountsNeverRise(
      states: seq<seq<string>>, rounds: seq<Round>, languages: seq<Language>, rules: PathRules, pattern: string)
    requires IsHistory(states, rounds, languages, rules) && AlwaysConfigured(pattern, rounds, languages)
    ensures Occurrences(Last(states), pattern) <= Occurrences(states[0], pattern)
    decreases |rounds|
  {
    hide Accepted, BuildPatterns, Occurrences, IsConfigured, Changes;
    if rounds != [] {
      HistoryHead(states, rounds, languages, rules);
      AcceptedRoundDoesNotRaise(states[0], rounds[0], states[1], languages, rules, pattern);
      HistoryTail(states, rounds, languages, rules);
      CountsNeverRise(states[1..], rounds[1..], languages, rules, pattern);
    }
  }
}
