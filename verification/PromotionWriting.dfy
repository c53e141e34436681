/**
 * What writing a promotion state promises, for every date that is not empty: the marker's text may hold spaces and
 * newlines, and then stands on several lines or reads as several tokens.
 */
module PromotionWriting {
  import opened JsStrings
  import opened PromotionTags

  // ---------------------------------------------------------------- tokens

  predicate AllTagTokens(tokens: seq<string>) {
    forall i :: 0 <= i < |tokens| ==> IsTag(tokens[i]) && IsToken(tokens[i])
  }

  lemma {:induction false} BlockTokensAreTags(block: seq<string>)
    requires forall i :: 0 <= i < |block| ==> IsTagLine(block[i]) || IsBlank(block[i])
    ensures AllTagTokens(BlockTokens(block))
  {
    if block != [] {
      if IsBlank(block[0]) { TokensOfBlank(block[0]); }
      BlockTokensAreTags(block[1..]);
    }
  }

  lemma {:induction false} NonMarkersOf(tokens: seq<string>, t: string)
    ensures t in NonMarkers(tokens) <==> t in tokens && !IsMarker(t)
    ensures NonMarkers(NonMarkers(tokens)) == NonMarkers(tokens)
  {
    hide IsMarker;
    if tokens != [] {
      NonMarkersOf(tokens[1..], t);
      var rest := NonMarkers(tokens[1..]);
      assert ([tokens[0]] + rest)[1..] == rest && [] + rest == rest;
    }
  }

  lemma {:induction false} NonMarkersOfConcat(a: seq<string>, b: seq<string>)
    ensures NonMarkers(a + b) == NonMarkers(a) + NonMarkers(b)
    decreases |a|
  {
    hide IsMarker;
    if a == [] {
      assert a + b == b;
    } else {
      assert (a + b)[1..] == a[1..] + b;
      NonMarkersOfConcat(a[1..], b);
    }
  }

  /** The tokens of lines are those of the text they make: a newline is a space. */
  lemma {:induction false} TokensOfLines(lines: seq<string>)
    requires lines != []
    ensures BlockTokens(lines) == Tokens(Join(lines, "\n"))
  {
    if |lines| == 1 {
      assert BlockTokens(lines[1..]) == [];
    } else {
      TokensAtSpace(lines[0], '\n', Join(lines[1..], "\n"));
      TokensOfLines(lines[1..]);
    }
  }

  lemma TokensOfText(text: string)
    ensures BlockTokens(Split(text, '\n')) == Tokens(text)
  {
    TokensOfLines(Split(text, '\n'));
    JoinOfSplit(text, '\n');
  }

  /** What joining tokens puts before one more text. */
  function JoinBefore(tokens: seq<string>): string {
    if tokens == [] then "" else tokens[0] + " " + JoinBefore(tokens[1..])
  }

  lemma {:induction false} JoinBeforeText(tokens: seq<string>, text: string)
    ensures Join(tokens + [text], " ") == JoinBefore(tokens) + text
  {
    if tokens == [] {
      assert tokens + [text] == [text];
    } else {
      assert (tokens + [text])[1..] == tokens[1..] + [text];
      JoinBeforeText(tokens[1..], text);
    }
  }

  lemma {:induction false} JoinBeforeWithout(tokens: seq<string>)
    requires AllTagTokens(tokens)
    ensures '\n' !in JoinBefore(tokens)
  {
    if tokens != [] {
      assert IsToken(tokens[0]) && '\n' !in tokens[0];
      JoinBeforeWithout(tokens[1..]);
    }
  }

  lemma OneMoreToken(token: string, text: string)
    requires IsToken(token)
    ensures Tokens(token + " " + text) == [token] + Tokens(text)
  {
    var rest := " " + text;
    assert rest[1..] == text;
    assert token + " " + text == token + rest;
    TokensOfWord(token, rest);
  }

  lemma {:induction false} TokensBehind(kept: seq<string>, text: string)
    requires AllTagTokens(kept)
    ensures Tokens(JoinBefore(kept) + text) == kept + Tokens(text)
    decreases |kept|
  {
    hide Tokens, IsTag;
    if kept == [] {
      assert JoinBefore(kept) + text == text;
    } else {
      var rest := JoinBefore(kept[1..]) + text;
      assert JoinBefore(kept) + text == kept[0] + " " + rest;
      OneMoreToken(kept[0], rest);
      TokensBehind(kept[1..], text);
      assert kept == [kept[0]] + kept[1..];
    }
  }

  // ---------------------------------------------------------------- the marker's text

  /** A suggestion without a date is refused; every other target is written. */
  predicate IsWritten(target: Target) {
    target != ToSuggested("")
  }

  /** The marker as it would stand on lines of its own. */
  function MarkerLines(target: Target): seq<string> {
    if target.ToNone? then [] else Split(MarkerOf(target)[0], '\n')
  }

  function MarkerTokens(target: Target): seq<string> {
    if target.ToNone? then [] else Tokens(MarkerOf(target)[0])
  }

  /** What a caller can check of a date: all it adds are markers, and it does not end in an empty line. */
  predicate Settles(target: Target) {
    NonMarkers(MarkerTokens(target)) == [] && (MarkerLines(target) != [] ==> !IsBlank(Last(MarkerLines(target))))
  }

  lemma MarkersBegin(target: Target)
    requires !target.ToNone?
    ensures var m := MarkerOf(target)[0]; m != "" && m[0] == '@' && Split(m, '\n')[0] != "" && Split(m, '\n')[0][0] == '@'
  {
    var m := MarkerOf(target)[0];
    assert DECLINED[0] == '@' && SUGGESTED[0] == '@' && SUGGESTED != "";
    assert m[0] == '@';
  }

  // ---------------------------------------------------------------- what stands in the place of the block

  function IndentLine(block: seq<string>, feature: string): string {
    if block != [] then block[0] else feature
  }

  function LinesOf(replacement: seq<string>): seq<string> {
    if replacement == [] then [] else Split(replacement[0], '\n')
  }

  function KeptTokens(block: seq<string>): seq<string> {
    NonMarkers(BlockTokens(block))
  }

  /** What stands before the marker: the indentation and the tokens that are kept. */
  function Head(block: seq<string>, feature: string): string {
    Indent(IndentLine(block, feature)) + JoinBefore(KeptTokens(block))
  }

  lemma KeptAreTags(block: seq<string>)
    requires block != [] ==> IsBlock(block)
    ensures AllTagTokens(KeptTokens(block))
  {
    BlockTokensAreTags(block);
    var tokens := BlockTokens(block);
    hide IsTag, IsToken, IsMarker, BlockTokens;
    forall t | t in NonMarkers(tokens) ensures IsTag(t) && IsToken(t) { NonMarkersOf(tokens, t); }
  }

  lemma ReplacementText(block: seq<string>, feature: string, target: Target)
    requires !target.ToNone?
    ensures MarkerOf(target) != [] && Replacement(block, feature, target) == [Head(block, feature) + MarkerOf(target)[0]]
  {
    hide Indent, NonMarkers, BlockTokens;
    var kept, m := KeptTokens(block), MarkerOf(target)[0];
    assert TargetTokens(BlockTokens(block), target) == kept + [m];
    JoinBeforeText(kept, m);
    var indent := Indent(IndentLine(block, feature));
    assert indent + (JoinBefore(kept) + m) == indent + JoinBefore(kept) + m;
  }

  lemma TokensBehindHead(block: seq<string>, feature: string, text: string)
    requires block != [] ==> IsBlock(block)
    ensures Tokens(Head(block, feature) + text) == KeptTokens(block) + Tokens(text)
  {
    var kept, indent := KeptTokens(block), Indent(IndentLine(block, feature));
    KeptAreTags(block);
    hide KeptTokens, Tokens, IsBlock, AllTagTokens;
    assert Head(block, feature) + text == indent + (JoinBefore(kept) + text);
    TokensSkipSpace(indent, JoinBefore(kept) + text);
    TokensBehind(kept, text);
  }

  lemma HeadWithout(block: seq<string>, feature: string)
    requires block != [] ==> IsBlock(block)
    requires Without(block, '\n') && '\n' !in feature
    ensures '\n' !in Head(block, feature)
  {
    KeptAreTags(block);
    JoinBeforeWithout(KeptTokens(block));
    hide KeptTokens, IsBlock;
    var line := IndentLine(block, feature);
    assert '\n' !in line;
  }

  lemma {:induction false} IndentOf(space: string, text: string)
    requires IsBlank(space) && text != "" && text[0] == '@'
    ensures Indent(space + text) == space
    ensures !IsFeatureLine(space + text)
  {
    if space == "" {
      assert space + text == text;
      assert TrimStart(text) == text;
      assert "Feature:"[0] == 'F';
    } else {
      assert (space + text)[1..] == space[1..] + text;
      IndentOf(space[1..], text);
    }
  }

  lemma {:induction false} JoinWithout(tokens: seq<string>)
    requires AllTagTokens(tokens)
    ensures '\n' !in Join(tokens, " ")
    ensures tokens != [] ==> Join(tokens, " ") != "" && Join(tokens, " ")[0] == '@'
  {
    if |tokens| > 0 {
      assert IsToken(tokens[0]) && '\n' !in tokens[0];
      JoinWithout(tokens[1..]);
    }
  }

  /** The indentation stays, and the first of the new lines does not become the feature line. */
  predicate BeginsLike(lines: seq<string>, block: seq<string>, feature: string) {
    lines != [] ==>
      && Indent(lines[0]) == Indent(IndentLine(block, feature))
      && !IsFeatureLine(lines[0]) && Tokens(lines[0]) != []
  }

  lemma ClearedLines(block: seq<string>, feature: string)
    requires block != [] ==> IsBlock(block)
    requires Without(block, '\n') && '\n' !in feature
    ensures var b, kept := LinesOf(Replacement(block, feature, ToNone)), KeptTokens(block);
            && BlockTokens(b) == kept && |b| == (if kept == [] then 0 else 1) && BeginsLike(b, block, feature)
            && (b != [] ==> IsTagLine(b[0]) && Tokens(b[0]) == kept)
  {
    var kept, indent := KeptTokens(block), Indent(IndentLine(block, feature));
    KeptAreTags(block);
    var line := IndentLine(block, feature);
    assert '\n' !in line && '\n' !in indent;
    assert Replacement(block, feature, ToNone) == if kept == [] then [] else [indent + Join(kept, " ")] by {
      assert TargetTokens(BlockTokens(block), ToNone) == kept;
      hide NonMarkers, BlockTokens, Indent;
    }
    hide KeptTokens, IsBlock, Replacement, Indent;
    if kept != [] {
      JoinWithout(kept);
      var text := indent + Join(kept, " ");
      SplitWithout(text, '\n');
      TokensOfJoin(indent, kept);
      IndentOf(indent, Join(kept, " "));
      OneLineBlock(text);
    }
  }

  lemma OneLineBlock(line: string)
    ensures BlockTokens([line]) == Tokens(line)
  {
    assert [line][1..] == [];
    assert Tokens(line) + [] == Tokens(line);
  }

  /** A marker is written onto the end of the first line, and goes on below it when it holds newlines. */
  lemma MarkedLines(block: seq<string>, feature: string, target: Target)
    requires block != [] ==> IsBlock(block)
    requires Without(block, '\n') && '\n' !in feature && !target.ToNone?
    ensures var b, m, kept := LinesOf(Replacement(block, feature, target)), MarkerLines(target), KeptTokens(block);
            && m != [] && b == [Head(block, feature) + m[0]] + m[1..] && |b| == |m|
            && BlockTokens(b) == kept + MarkerTokens(target) && Tokens(b[0]) == kept + Tokens(m[0]) && Tokens(m[0]) != []
            && BeginsLike(b, block, feature)
  {
    var text := MarkerOf(target)[0];
    var head := Head(block, feature);
    ReplacementText(block, feature, target);
    FirstMarkerLine(target);
    hide Replacement, MarkerOf, IsBlock, Head, Tokens, BlockTokens, Indent, IsFeatureLine, KeptTokens;
    HeadWithout(block, feature);
    SplitBehind(head, text, '\n');
    TokensBehindHead(block, feature, text);
    TokensBehindHead(block, feature, Split(text, '\n')[0]);
    TokensOfText(head + text);
    HeadBegins(block, feature, Split(text, '\n')[0]);
  }

  lemma FirstMarkerLine(target: Target)
    requires !target.ToNone?
    ensures var first := Split(MarkerOf(target)[0], '\n')[0]; first != "" && first[0] == '@' && Tokens(first) != []
  {
    MarkersBegin(target);
    var first := Split(MarkerOf(target)[0], '\n')[0];
    hide MarkerOf, Split;
    MarkedHasTokens(first);
    hide Tokens;
  }

  lemma MarkedHasTokens(line: string)
    requires line != "" && line[0] == '@'
    ensures Tokens(line) != []
  {
    assert !IsSpace(line[0]);
    hide Tokens, IsSpace;
    BlankIffNoTokens(line);
  }

  lemma KeptBegin(kept: seq<string>, text: string)
    requires AllTagTokens(kept) && text != "" && text[0] == '@'
    ensures var tail := JoinBefore(kept) + text; tail != "" && tail[0] == '@'
  {
    if kept != [] { assert IsTag(kept[0]); }
  }

  lemma HeadBegins(block: seq<string>, feature: string, text: string)
    requires block != [] ==> IsBlock(block)
    requires text != "" && text[0] == '@'
    ensures Indent(Head(block, feature) + text) == Indent(IndentLine(block, feature)) && !IsFeatureLine(Head(block, feature) + text)
  {
    hide IsBlock, IsFeatureLine, KeptTokens, AllTagTokens, JoinBefore, IndentLine, Indent, IsTag, IsToken, IsBlank;
    var kept, indent := KeptTokens(block), Indent(IndentLine(block, feature));
    KeptAreTags(block);
    KeptBegin(kept, text);
    var tail := JoinBefore(kept) + text;
    IndentOf(indent, tail);
    assert Head(block, feature) + text == indent + tail;
  }

  // ---------------------------------------------------------------- the file as a whole

  predicate HasFeature(content: string) {
    FeatureIndex(Split(content, '\n')) < |Split(content, '\n')|
  }

  /** The cut of the lines above `Feature:` in a file's lines. */
  function CutOfFile(lines: seq<string>): Cut
    requires FeatureIndex(lines) < |lines|
  {
    CutOf(lines[..FeatureIndex(lines)])
  }

  function Rest(lines: seq<string>): seq<string>
    requires FeatureIndex(lines) < |lines|
  {
    lines[FeatureIndex(lines)..]
  }

  /** The lines that stand in the place of the block afterwards. */
  function NewLines(lines: seq<string>, target: Target): seq<string>
    requires FeatureIndex(lines) < |lines|
  {
    LinesOf(Replacement(CutOfFile(lines).block, Rest(lines)[0], target))
  }

  lemma FirstOfRest(lines: seq<string>, k: nat)
    requires k < |lines|
    ensures lines[k..] != [] && lines[k..][0] == lines[k] && lines == lines[..k] + lines[k..]
  {}

  /** A file is its cut and the rest. */
  lemma FileIsItsCut(lines: seq<string>)
    requires FeatureIndex(lines) < |lines|
    ensures IsCut(CutOfFile(lines)) && Rest(lines) != [] && IsFeatureLine(Rest(lines)[0])
    ensures lines == Assemble(CutOfFile(lines), CutOfFile(lines).block, Rest(lines))
    ensures lines[..FeatureIndex(lines)] == CutOfFile(lines).above + CutOfFile(lines).block + CutOfFile(lines).gap
  {
    hide CutOf, IsCut, IsFeatureLine;
    var above, rest := lines[..FeatureIndex(lines)], Rest(lines);
    FoundCutIsCut(above);
    FirstOfRest(lines, FeatureIndex(lines));
    assert CutOfFile(lines) == CutOf(above);
    assert Assemble(CutOf(above), CutOf(above).block, rest) == above + rest;
    hide Assemble;
  }

  lemma WithoutParts(a: seq<string>, b: seq<string>)
    requires Without(a + b, '\n')
    ensures Without(a, '\n') && Without(b, '\n')
  {
    assert forall i :: 0 <= i < |a| ==> a[i] == (a + b)[i];
    assert forall i :: 0 <= i < |b| ==> b[i] == (a + b)[|a| + i];
  }

  lemma PiecesWithout(lines: seq<string>)
    requires FeatureIndex(lines) < |lines| && Without(lines, '\n')
    ensures var cut, rest := CutOfFile(lines), Rest(lines);
            Without(cut.above, '\n') && Without(cut.block, '\n') && Without(cut.gap, '\n') && Without(rest, '\n')
  {
    FileIsItsCut(lines);
    var cut, rest := CutOfFile(lines), Rest(lines);
    hide CutOfFile, Rest, IsCut, IsFeatureLine, Without;
    WithoutParts(cut.above + cut.block + cut.gap, rest);
    WithoutParts(cut.above + cut.block, cut.gap);
    WithoutParts(cut.above, cut.block);
  }

  lemma SplitOfAssembled(cut: Cut, r: seq<string>, rest: seq<string>)
    requires Without(cut.above, '\n') && Without(cut.gap, '\n') && Without(rest, '\n') && rest != [] && |r| <= 1
    ensures Split(Join(Assemble(cut, r, rest), "\n"), '\n') == Assemble(cut, LinesOf(r), rest)
  {
    hide Split, Join, Without;
    SplitOfJoinAny(Assemble(cut, r, rest), '\n');
    SplitAllOfConcat(cut.above + r + cut.gap, rest, '\n');
    SplitAllOfConcat(cut.above + r, cut.gap, '\n');
    SplitAllOfConcat(cut.above, r, '\n');
    SplitAllWithout(cut.above, '\n');
    SplitAllWithout(cut.gap, '\n');
    SplitAllWithout(rest, '\n');
    assert SplitAll(r, '\n') == LinesOf(r) by {
      if r != [] {
        assert SplitAll(r[1..], '\n') == [];
        assert Split(r[0], '\n') + [] == Split(r[0], '\n');
      }
    }
    hide SplitAll, LinesOf;
  }

  /** The written file, cut into lines: only the block has changed. */
  lemma LinesAfter(content: string, target: Target)
    requires HasFeature(content) && IsWritten(target)
    ensures Serialize(content, target).Some?
    ensures var lines := Split(content, '\n');
            Split(Serialize(content, target).value, '\n') == Assemble(CutOfFile(lines), NewLines(lines, target), Rest(lines))
  {
    var lines := Split(content, '\n');
    var cut, rest := CutOfFile(lines), Rest(lines);
    var r := Replacement(cut.block, rest[0], target);
    FileIsItsCut(lines);
    PiecesWithout(lines);
    assert rest[0] == lines[FeatureIndex(lines)];
    assert Rewritten(lines, target) == Assemble(cut, r, rest);
    hide CutOfFile, IsCut, IsFeatureLine, Assemble, Replacement, Split, Join, Without, Rewritten, Rest;
    SplitOfAssembled(cut, r, rest);
  }

  /** In the block, the tokens that are no markers stay, in their order, and the marker's text is added behind them. */
  lemma NewLinesRead(block: seq<string>, feature: string, target: Target)
    requires block != [] ==> IsBlock(block)
    requires Without(block, '\n') && '\n' !in feature
    ensures BlockTokens(LinesOf(Replacement(block, feature, target))) == NonMarkers(BlockTokens(block)) + MarkerTokens(target)
    ensures BeginsLike(LinesOf(Replacement(block, feature, target)), block, feature)
  {
    hide IsBlock, Replacement, Without;
    if target.ToNone? {
      ClearedLines(block, feature);
      assert KeptTokens(block) + [] == KeptTokens(block);
    } else {
      MarkedLines(block, feature, target);
    }
    hide BlockTokens, NonMarkers, MarkerTokens;
  }

  /**
   * Every line outside the block stays, and in the block the tokens that are no markers stay in order; behind them
   * stands the marker, as whatever tokens its text makes.
   */
  lemma {:induction false} NothingElseChanges(content: string, target: Target)
    requires HasFeature(content) && IsWritten(target)
    ensures
      var lines := Split(content, '\n');
      var cut, after := CutOfFile(lines), NewLines(lines, target);
      && lines == Assemble(cut, cut.block, Rest(lines))
      && Split(Serialize(content, target).value, '\n') == Assemble(cut, after, Rest(lines))
      && BlockTokens(after) == NonMarkers(BlockTokens(cut.block)) + MarkerTokens(target)
  {
    var lines := Split(content, '\n');
    FileIsItsCut(lines);
    PiecesWithout(lines);
    LinesAfter(content, target);
    hide CutOf, IsFeatureLine, Assemble, Replacement, Serialize, Without;
    NewLinesRead(CutOfFile(lines).block, Rest(lines)[0], target);
  }

  // ---------------------------------------------------------------- writing again

  lemma {:induction false} OpenAbove(lines: seq<string>, b: nat)
    requires b < |lines| && IsTagLine(lines[b..][0])
    requires forall i :: 0 <= i < |lines[b..]| ==> IsTagLine(lines[b..][i]) || IsBlank(lines[b..][i])
    ensures !Closed(lines)
    decreases |lines|
  {
    TagLineIsNotBlank(Last(lines));
    hide IsTagLine, IsBlank;
    assert lines[b..][|lines| - 1 - b] == Last(lines);
    if IsBlank(Last(lines)) {
      assert b < |Front(lines)|;
      assert forall i :: 0 <= i < |Front(lines)[b..]| ==> Front(lines)[b..][i] == lines[b..][i];
      OpenAbove(Front(lines), b);
    }
  }

  /** A block is never found in lines that are closed, whatever stands below them. */
  lemma BlockStaysBelow(above: seq<string>, below: seq<string>)
    requires Closed(above)
    ensures var cut := CutOf(above + below);
            |cut.above| >= |above| && cut.above + cut.block + cut.gap == above + below && IsCut(cut)
  {
    var cut := CutOf(above + below);
    FoundCutIsCut(above + below);
    hide CutOf, Closed, IsTagLine, IsBlank;
    if |cut.above| < |above| { ReachesUp(above, below, cut); }
  }

  lemma ReachesUp(above: seq<string>, below: seq<string>, cut: Cut)
    requires IsCut(cut) && cut.above + cut.block + cut.gap == above + below && |cut.above| < |above|
    ensures !Closed(above)
  {
    hide IsTagLine, IsBlank, Closed, IsCut;
    CutGoesOn(above, below, cut);
    TagsAndBlanks(cut);
    WithoutFront(cut.above, cut.block + cut.gap, above, below);
    OpenAbove(above, |cut.above|);
  }

  lemma CutGoesOn(above: seq<string>, below: seq<string>, cut: Cut)
    requires IsCut(cut) && cut.above + cut.block + cut.gap == above + below && |cut.above| < |above|
    ensures cut.block != [] && cut.above + (cut.block + cut.gap) == above + below
  {
    hide IsBlock, AllBlank, Closed;
    assert cut.above + cut.block + cut.gap == cut.above + (cut.block + cut.gap);
    assert |cut.block + cut.gap| > 0;
  }

  lemma WithoutFront<T>(front: seq<T>, back: seq<T>, above: seq<T>, below: seq<T>)
    requires front + back == above + below && |front| <= |above|
    ensures above[|front|..] <= back
  {
    var whole := above + below;
    assert whole[|front|..] == back && above[|front|..] == whole[|front|..|above|];
  }

  lemma TagsAndBlanks(cut: Cut)
    requires IsCut(cut) && cut.block != []
    ensures var lines := cut.block + cut.gap;
            IsTagLine(lines[0]) && forall i :: 0 <= i < |lines| ==> IsTagLine(lines[i]) || IsBlank(lines[i])
  {
    hide IsTagLine, IsBlank, Closed;
  }

  lemma {:induction false} FirstCharacter(line: string)
    ensures if Tokens(line) == [] then TrimStart(line) == "" else TrimStart(line) != "" && TrimStart(line)[0] == Tokens(line)[0][0]
  {
    if line != "" && IsSpace(line[0]) { FirstCharacter(line[1..]); }
  }

  lemma TagLineIsNoFeature(line: string)
    requires IsTagLine(line) || IsBlank(line)
    ensures !IsFeatureLine(line)
  {
    FirstCharacter(line);
    BlankIffNoTokens(line);
    assert "Feature:"[0] == 'F';
    assert |TrimStart(line)| >= 8 ==> TrimStart(line)[..8][0] == TrimStart(line)[0];
  }

  /** What stands around the place of the block, as any cut of a file's lines leaves it. */
  predicate IsFrame(cut: Cut, rest: seq<string>) {
    && Closed(cut.above) && AllBlank(cut.gap) && rest != [] && IsFeatureLine(rest[0])
    && forall i :: 0 <= i < |cut.above| ==> !IsFeatureLine(cut.above[i])
  }

  lemma FeatureInTheMiddle(cut: Cut, b: seq<string>, rest: seq<string>)
    requires IsFrame(cut, rest)
    requires var lines := Assemble(cut, b, rest); |cut.above| <= FeatureIndex(lines) < |cut.above| + |b|
    ensures var lines := Assemble(cut, b, rest); |CutOfFile(lines).block| < |b|
  {
    var lines := Assemble(cut, b, rest);
    var j := FeatureIndex(lines) - |cut.above|;
    hide IsFeatureLine, CutOf, FeatureIndex, Closed;
    assert lines[..|cut.above| + j] == cut.above + b[..j];
    BlockStaysBelow(cut.above, b[..j]);
    hide IsCut;
  }

  /** A stretch that begins behind `above` and ends before `gap` is no longer than `b`, and as long only if it is `b`. */
  lemma StretchWithin<T>(above: seq<T>, b: seq<T>, gap: seq<T>, front: seq<T>, stretch: seq<T>, back: seq<T>)
    requires above + b + gap == front + stretch + back
    requires |front| >= |above| && |front| + |stretch| <= |above| + |b|
    ensures |stretch| <= |b| && (|stretch| == |b| ==> stretch == b)
  {
    var whole := above + b + gap;
    assert stretch == whole[|front|..|front| + |stretch|];
    assert b == whole[|above|..|above| + |b|];
  }

  lemma EndsBeforeBlanks(lines: seq<string>, gap: seq<string>, upTo: seq<string>, back: seq<string>)
    requires lines + gap == upTo + back && AllBlank(gap) && upTo != [] && IsTagLine(Last(upTo))
    ensures |upTo| <= |lines|
  {
    TagLineIsNotBlank(Last(upTo));
    hide IsTagLine, IsBlank;
    assert (upTo + back)[|upTo| - 1] == Last(upTo);
    assert forall i :: |lines| <= i < |lines + gap| ==> (lines + gap)[i] == gap[i - |lines|];
  }

  lemma BlockEndsAboveGap(above: seq<string>, b: seq<string>, gap: seq<string>)
    requires Closed(above) && AllBlank(gap)
    ensures var c := CutOf(above + b + gap); |c.block| <= |b| && (b != [] && |c.block| == |b| ==> c.block == b)
  {
    hide IsTagLine, IsBlank, CutOf, Closed, AllBlank, IsCut;
    assert above + (b + gap) == above + b + gap;
    var c := CutOf(above + b + gap);
    BlockStaysBelow(above, b + gap);
    if c.block != [] {
      BlockEndsInATagLine(c);
      EndsBeforeBlanks(above + b, gap, c.above + c.block, c.gap);
      StretchWithin(above, b, gap, c.above, c.block, c.gap);
    }
  }

  lemma BlockEndsInATagLine(cut: Cut)
    requires IsCut(cut) && cut.block != []
    ensures IsTagLine(Last(cut.above + cut.block))
  {
    hide IsTagLine;
  }

  lemma BlanksAreNoFeatures(lines: seq<string>)
    requires AllBlank(lines)
    ensures forall i :: 0 <= i < |lines| ==> !IsFeatureLine(lines[i])
  {
    forall i | 0 <= i < |lines| ensures !IsFeatureLine(lines[i]) { TagLineIsNoFeature(lines[i]); }
  }

  lemma FeatureAtTheSeam(cut: Cut, b: seq<string>, rest: seq<string>)
    requires IsFrame(cut, rest)
    requires var lines := Assemble(cut, b, rest); FeatureIndex(lines) >= |cut.above| + |b|
    ensures var lines := Assemble(cut, b, rest);
            && FeatureIndex(lines) == |cut.above + b + cut.gap| < |lines|
            && lines[..FeatureIndex(lines)] == cut.above + b + cut.gap && Rest(lines) == rest
  {
    var lines := Assemble(cut, b, rest);
    var m, n := |cut.above| + |b|, |cut.above + b + cut.gap|;
    BlanksAreNoFeatures(cut.gap);
    hide IsFeatureLine, Closed, AllBlank;
    assert lines[n] == rest[0];
    assert forall i :: m <= i < n ==> lines[i] == cut.gap[i - m];
  }

  lemma BlocksAreNoFeatures(b: seq<string>)
    requires IsBlock(b)
    ensures forall i :: 0 <= i < |b| ==> !IsFeatureLine(b[i])
  {
    forall i | 0 <= i < |b| ensures !IsFeatureLine(b[i]) {
      hide IsTagLine, IsBlank, IsFeatureLine;
      TagLineIsNoFeature(b[i]);
    }
  }

  lemma FirstFeatureIsBelow(front: seq<string>, lines: seq<string>)
    requires front <= lines && forall i :: 0 <= i < |front| ==> !IsFeatureLine(front[i])
    ensures FeatureIndex(lines) >= |front|
  {
    hide IsFeatureLine;
    assert forall i :: 0 <= i < |front| ==> lines[i] == front[i];
  }

  lemma BlockHasNoFeature(cut: Cut, b: seq<string>, rest: seq<string>)
    requires IsFrame(cut, rest) && IsBlock(b)
    ensures FeatureIndex(Assemble(cut, b, rest)) >= |cut.above| + |b|
  {
    BlocksAreNoFeatures(b);
    hide IsFeatureLine, Closed, AllBlank, IsBlock;
    FirstFeatureIsBelow(cut.above + b, Assemble(cut, b, rest));
  }

  /** What a second write finds: no block that is longer than the lines the first one wrote, and as long only if it is those. */
  lemma SecondCut(cut: Cut, b: seq<string>, rest: seq<string>)
    requires IsFrame(cut, rest)
    ensures
      var lines := Assemble(cut, b, rest);
      && FeatureIndex(lines) < |lines|
      && |CutOfFile(lines).block| <= |b|
      && (b != [] && |CutOfFile(lines).block| == |b| ==> CutOfFile(lines).block == b)
      && (IsBlock(b) ==> CutOfFile(lines) == Cut(cut.above, b, cut.gap) && Rest(lines) == rest)
  {
    var lines := Assemble(cut, b, rest);
    FeatureBelow(cut, b, rest);
    if IsBlock(b) {
      BlockHasNoFeature(cut, b, rest);
      FeatureAtTheSeam(cut, b, rest);
      CutIsFound(Cut(cut.above, b, cut.gap));
    }
    hide IsFrame, IsBlock, CutOf, Assemble, IsFeatureLine;
    if FeatureIndex(lines) < |cut.above| + |b| {
      FeatureInTheMiddle(cut, b, rest);
    } else {
      FeatureAtTheSeam(cut, b, rest);
      assert Closed(cut.above) && AllBlank(cut.gap) by { FrameParts(cut, rest); }
      BlockEndsAboveGap(cut.above, b, cut.gap);
    }
  }

  lemma FrameParts(cut: Cut, rest: seq<string>)
    requires IsFrame(cut, rest)
    ensures Closed(cut.above) && AllBlank(cut.gap)
  {}

  lemma FeatureBelow(cut: Cut, b: seq<string>, rest: seq<string>)
    requires IsFrame(cut, rest)
    ensures var lines := Assemble(cut, b, rest); |cut.above| <= FeatureIndex(lines) < |lines|
  {
    var lines := Assemble(cut, b, rest);
    assert lines[|cut.above| + |b| + |cut.gap|] == rest[0];
    assert forall i :: 0 <= i < |cut.above| ==> lines[i] == cut.above[i];
    hide IsFeatureLine, Closed, AllBlank;
  }

  // ---------------------------------------------------------------- idempotence

  /** The lines of a replacement are a block exactly as far as the marker's text lets them. */
  lemma SettledLinesAreABlock(block: seq<string>, feature: string, target: Target)
    requires block != [] ==> IsBlock(block)
    requires Without(block, '\n') && '\n' !in feature && Settles(target)
    ensures var b := LinesOf(Replacement(block, feature, target)); b != [] ==> IsBlock(b)
  {
    hide Replacement, MarkerTokens, MarkerLines, IsBlock, Tokens, BlockTokens, KeptTokens, IsTag, IsTagLine, LinesOf, AllTagsIn;
    var b := LinesOf(Replacement(block, feature, target));
    if target.ToNone? {
      ClearedLines(block, feature);
      if b != [] { OneLineIsABlock(b); }
    } else {
      MarkedLines(block, feature, target);
      BothAreTags(block, target);
      TagsOnEveryLine(b);
      if |b| > 1 { assert Last(b) == Last(MarkerLines(target)); }
      LinesAreABlock(b);
    }
  }

  lemma OneLineIsABlock(lines: seq<string>)
    requires |lines| == 1 && IsTagLine(lines[0])
    ensures IsBlock(lines)
  {
    hide IsTagLine;
  }

  lemma BothAreTags(block: seq<string>, target: Target)
    requires (block != [] ==> IsBlock(block)) && Settles(target)
    ensures AllTagsIn(KeptTokens(block) + MarkerTokens(target))
  {
    KeptAreTags(block);
    MarkerTokensAreTags(target);
    hide IsTag, IsToken, IsBlock, KeptTokens, MarkerTokens;
  }

  predicate AllTagsIn(tokens: seq<string>) {
    forall t :: t in tokens ==> IsTag(t)
  }

  lemma {:induction false} OnlyMarkers(tokens: seq<string>)
    ensures NonMarkers(tokens) == [] <==> forall t :: t in tokens ==> IsMarker(t)
  {
    hide IsMarker;
    if tokens != [] { OnlyMarkers(tokens[1..]); }
  }

  lemma MarkerTokensAreTags(target: Target)
    requires NonMarkers(MarkerTokens(target)) == []
    ensures AllTagsIn(MarkerTokens(target))
  {
    OnlyMarkers(MarkerTokens(target));
    forall t | IsMarker(t) ensures IsTag(t) {
      assert DECLINED[0] == '@' && SUGGESTED[0] == '@';
      assert IsSuggestion(t) ==> t[..|SUGGESTED|][0] == t[0];
    }
  }

  lemma {:induction false} TagsOnEveryLine(lines: seq<string>)
    requires AllTagsIn(BlockTokens(lines))
    ensures forall i :: 0 <= i < |lines| ==> IsTagLine(lines[i]) || IsBlank(lines[i])
  {
    if lines != [] {
      BlankIffNoTokens(lines[0]);
      hide IsTag, Tokens, IsBlank;
      assert forall t :: t in Tokens(lines[0]) ==> t in BlockTokens(lines);
      TagsOnEveryLine(lines[1..]);
    }
  }

  lemma LinesAreABlock(lines: seq<string>)
    requires lines != [] && forall i :: 0 <= i < |lines| ==> IsTagLine(lines[i]) || IsBlank(lines[i])
    requires Tokens(lines[0]) != [] && (|lines| > 1 ==> !IsBlank(Last(lines)))
    ensures IsBlock(lines)
  {
    BlankIffNoTokens(lines[0]);
    hide IsTagLine, IsBlank, Tokens;
  }

  /** In the place of what a settled target wrote, it writes the same again. */
  lemma SameTextAgain(block: seq<string>, feature: string, target: Target)
    requires block != [] ==> IsBlock(block)
    requires Without(block, '\n') && '\n' !in feature && Settles(target)
    ensures var r := Replacement(block, feature, target); Replacement(LinesOf(r), feature, target) == r
  {
    var r := Replacement(block, feature, target);
    var b, kept := LinesOf(r), KeptTokens(block);
    NewLinesRead(block, feature, target);
    NonMarkersOf(BlockTokens(block), "");
    NonMarkersOfConcat(kept, MarkerTokens(target));
    assert kept + [] == kept;
    assert KeptTokens(b) == kept;
    hide BlockTokens, NonMarkers, MarkerTokens, MarkerLines, IsBlock, Indent, KeptTokens;
    SameReplacement(block, b, feature, target);
  }

  lemma SameReplacement(block: seq<string>, b: seq<string>, feature: string, target: Target)
    requires KeptTokens(b) == KeptTokens(block) && BeginsLike(b, block, feature)
    requires b == LinesOf(Replacement(block, feature, target))
    ensures Replacement(b, feature, target) == Replacement(block, feature, target)
  {
    hide NonMarkers, BlockTokens, Indent, Tokens, IsFeatureLine;
    if b == [] { assert Replacement(block, feature, target) == []; }
  }

  lemma OneWord(word: string)
    requires IsToken(word)
    ensures Tokens(word) == [word] && Split(word, '\n') == [word] && !IsBlank(word)
  {
    TokensOfWord(word, "");
    assert word + "" == word;
    SplitWithout(word, '\n');
    BlankIffNoTokens(word);
  }

  lemma ClearAndDeclineSettle(target: Target)
    requires !target.ToSuggested?
    ensures Settles(target)
  {
    if target.ToDeclined? {
      DeclinedIsAToken();
      OneWord(DECLINED);
      OnlyMarkers([DECLINED]);
      hide DECLINED, Tokens, Split, IsBlank;
    }
  }

  lemma DeclinedIsAToken()
    ensures IsToken(DECLINED) && IsMarker(DECLINED)
  {
    assert forall i :: 0 <= i < |DECLINED| ==> '-' <= DECLINED[i] <= 'z';
    assert forall c: char :: '-' <= c <= 'z' ==> !IsSpace(c);
  }

  /** What a second write puts in the place of what it finds is what it finds, exactly when the target settles. */
  lemma SecondWrite(lines: seq<string>, target: Target)
    requires FeatureIndex(lines) < |lines| && Without(lines, '\n')
    ensures
      var after := Assemble(CutOfFile(lines), NewLines(lines, target), Rest(lines));
      FeatureIndex(after) < |after| && (NewLines(after, target) == CutOfFile(after).block <==> Settles(target))
  {
    var cut, rest, b := CutOfFile(lines), Rest(lines), NewLines(lines, target);
    var after := Assemble(cut, b, rest);
    FileIsAFrame(lines);
    PiecesWithout(lines);
    SecondCut(cut, b, rest);
    hide CutOf, IsBlock, IsFeatureLine, Assemble, Without, IsFrame, Settles;
    if Settles(target) {
      SettledLinesAreABlock(cut.block, rest[0], target);
      SameTextAgain(cut.block, rest[0], target);
      if b == [] { NothingAgain(cut.block, rest[0], Rest(after)[0], target); }
    } else if NewLines(after, target) == CutOfFile(after).block {
      AfterWithout(cut, b, rest);
      FileIsAFrame(after);
      PiecesWithout(after);
      hide CutOfFile, Rest;
      SettlesWhenSame(cut.block, rest[0], CutOfFile(after).block, Rest(after)[0], target);
    }
  }

  lemma FileIsAFrame(lines: seq<string>)
    requires FeatureIndex(lines) < |lines|
    ensures var cut := CutOfFile(lines); IsFrame(cut, Rest(lines)) && (cut.block != [] ==> IsBlock(cut.block))
  {
    FileIsItsCut(lines);
    var cut, above := CutOfFile(lines), lines[..FeatureIndex(lines)];
    hide CutOf, IsBlock, Closed, AllBlank, IsFeatureLine;
    forall i | 0 <= i < |cut.above| ensures !IsFeatureLine(cut.above[i]) { assert cut.above[i] == above[i]; }
  }

  lemma NothingAgain(block: seq<string>, feature: string, other: string, target: Target)
    requires LinesOf(Replacement(block, feature, target)) == []
    ensures LinesOf(Replacement([], other, target)) == []
  {
    hide Indent;
    assert Replacement(block, feature, target) == [];
    assert BlockTokens([]) == [] && NonMarkers([]) == [];
  }

  lemma AfterWithout(cut: Cut, b: seq<string>, rest: seq<string>)
    requires Without(cut.above, '\n') && Without(b, '\n') && Without(cut.gap, '\n') && Without(rest, '\n')
    ensures Without(Assemble(cut, b, rest), '\n')
  {}

  lemma SettlesWhenSame(block: seq<string>, feature: string, found: seq<string>, below: string, target: Target)
    requires (block != [] ==> IsBlock(block)) && Without(block, '\n') && '\n' !in feature
    requires (found != [] ==> IsBlock(found)) && Without(found, '\n') && '\n' !in below
    requires LinesOf(Replacement(found, below, target)) == found
    requires var b := LinesOf(Replacement(block, feature, target));
             |found| <= |b| && (b != [] && |found| == |b| ==> found == b)
    ensures Settles(target)
  {
    if !target.ToSuggested? {
      ClearAndDeclineSettle(target);
    } else {
      var b, m, added := LinesOf(Replacement(block, feature, target)), MarkerLines(target), MarkerTokens(target);
      hide IsBlock, Replacement, NonMarkers, BlockTokens, Tokens, Indent, Without, MarkerTokens, MarkerLines, Head;
      MarkedLines(block, feature, target);
      MarkedLines(found, below, target);
      assert found == b;
      NonMarkersOf(BlockTokens(block), "");
      NonMarkersOfConcat(KeptTokens(block), added);
      assert KeptTokens(block) + NonMarkers(added) + added == KeptTokens(block) + added;
      assert NonMarkers(added) == [];
      BlankIffNoTokens(m[0]);
      LastOfBlockIsNotBlank(b);
      if |m| > 1 { assert Last(b) == Last(m); }
    }
  }

  lemma LastOfBlockIsNotBlank(lines: seq<string>)
    requires IsBlock(lines)
    ensures !IsBlank(Last(lines))
  {
    TagLineIsNotBlank(Last(lines));
  }

  lemma SameBlock(cut: Cut, b: seq<string>, rest: seq<string>)
    ensures Assemble(cut, b, rest) == Assemble(cut, cut.block, rest) <==> b == cut.block
  {
    var n, a := |cut.above|, Assemble(cut, b, rest);
    assert a[n..n + |b|] == b;
    var a' := Assemble(cut, cut.block, rest);
    assert a'[n..n + |cut.block|] == cut.block;
    assert |a| == n + |b| + |cut.gap| + |rest| && |a'| == n + |cut.block| + |cut.gap| + |rest|;
  }

  /**
   * Writing twice is writing once, for every content and every target that is written at all, if and only if there is no
   * feature line or the target settles: all that the marker's text adds are markers, and it does not end in an empty line.
   */
  lemma WritingIsIdempotentIff(content: string, target: Target)
    ensures
      var once := Serialize(content, target);
      && (once.None? <==> target == ToSuggested(""))
      && (once.Some? ==> (Serialize(once.value, target) == once <==> !HasFeature(content) || Settles(target)))
  {
    if IsWritten(target) && HasFeature(content) {
      var lines, once := Split(content, '\n'), Serialize(content, target).value;
      LinesAfter(content, target);
      SecondWrite(lines, target);
      var after := Split(once, '\n');
      FileIsItsCut(after);
      hide CutOf, IsCut, IsFeatureLine, Settles, Serialize, NewLines, Assemble;
      LinesAfter(once, target);
      SameBlock(CutOfFile(after), NewLines(after, target), Rest(after));
      var twice := Serialize(once, target).value;
      JoinOfSplit(once, '\n');
      JoinOfSplit(twice, '\n');
    }
  }

  /** For a date without spaces the condition is that it is well formed. */
  lemma SettlesIffWellDated(date: string)
    requires IsToken(date)
    ensures Settles(ToSuggested(date)) <==> IsDate(date)
  {
    var token := SUGGESTED + date;
    MarkerIsAToken(date);
    OneWord(token);
    OnlyMarkers([token]);
    MarkerIffDate(date);
    hide SUGGESTED, IsMarker, Tokens, Split, IsBlank;
    assert MarkerTokens(ToSuggested(date)) == [token] && MarkerLines(ToSuggested(date)) == [token];
  }

  lemma MarkerIsAToken(date: string)
    requires IsToken(date)
    ensures IsToken(SUGGESTED + date)
  {
    assert forall i :: 0 <= i < |SUGGESTED| ==> '-' <= SUGGESTED[i] <= 'z';
    assert forall c: char :: '-' <= c <= 'z' ==> !IsSpace(c);
    hide IsSpace;
    var token := SUGGESTED + date;
    assert forall i :: 0 <= i < |token| ==> token[i] == if i < |SUGGESTED| then SUGGESTED[i] else date[i - |SUGGESTED|];
  }

  lemma MarkerIffDate(date: string)
    ensures IsMarker(SUGGESTED + date) <==> IsDate(date)
    ensures IsSuggestion(SUGGESTED + date) <==> IsDate(date)
  {
    var token := SUGGESTED + date;
    assert token[|SUGGESTED|..] == date && token[..|SUGGESTED|] == SUGGESTED;
    assert token[11] == 's' && DECLINED[11] == 'd';
  }

  /** Spaces behind a well-formed date do no harm; a newline among them does. */
  lemma SpaceBehindADate(date: string, space: string)
    requires IsDate(date) && IsBlank(space)
    ensures Settles(ToSuggested(date + space)) <==> '\n' !in space
  {
    var token, text := SUGGESTED + date, SUGGESTED + (date + space);
    assert text == token + space;
    DateIsAToken(date);
    MarkerIsAToken(date);
    MarkerIffDate(date);
    OnlyMarkers([token]);
    assert Tokens(text) == [token] by { TokensOfTrailing(token, space); }
    TokenHasNoNewline(token);
    hide SUGGESTED, IsMarker, Tokens, IsToken;
    SplitBehind(token, space, '\n');
    if '\n' in space {
      NewlineLeavesABlank(space);
      assert Last(Split(text, '\n')) == Last(Split(space, '\n'));
    } else {
      SplitWithout(space, '\n');
      assert Last(Split(text, '\n')) == text;
      BlankIffNoTokens(text);
    }
  }

  lemma DateIsAToken(date: string)
    requires IsDate(date)
    ensures IsToken(date)
  {
    assert forall c: char :: '-' <= c <= '9' ==> !IsSpace(c);
    hide IsSpace;
    assert forall i :: 0 <= i < |date| ==> '-' <= date[i] <= '9';
  }

  lemma TokensOfTrailing(token: string, space: string)
    requires IsToken(token) && IsBlank(space)
    ensures Tokens(token + space) == [token]
  {
    TokensOfWord(token, space);
    TokensOfBlank(space);
  }

  lemma TokenHasNoNewline(token: string)
    requires IsToken(token)
    ensures '\n' !in token
  {}

  lemma NewlineLeavesABlank(space: string)
    requires IsBlank(space) && '\n' in space
    ensures |Split(space, '\n')| > 1 && IsBlank(Last(Split(space, '\n')))
  {
    LastPartIsBlank(space);
    SplitAtNewline(space);
  }

  lemma {:induction false} LastPartIsBlank(space: string)
    requires IsBlank(space)
    ensures IsBlank(Last(Split(space, '\n')))
  {
    hide IsSpace;
    if space != "" { LastPartIsBlank(space[1..]); }
  }

  lemma {:induction false} SplitAtNewline(text: string)
    requires '\n' in text
    ensures |Split(text, '\n')| > 1
  {
    if text[0] != '\n' { SplitAtNewline(text[1..]); }
  }

  // ---------------------------------------------------------------- reading back what was written

  lemma {:induction false} TagTokensOfConcat(a: seq<string>, b: seq<string>)
    ensures TagTokens(a + b) == TagTokens(a) + TagTokens(b)
    decreases |a|
  {
    hide IsTagLine, Tokens;
    if a == [] {
      assert a + b == b;
    } else {
      assert (a + b)[1..] == a[1..] + b;
      TagTokensOfConcat(a[1..], b);
    }
  }

  lemma {:induction false} BlanksHaveNoTags(lines: seq<string>)
    requires AllBlank(lines)
    ensures TagTokens(lines) == []
  {
    if lines != [] {
      TagLineIsNotBlank(lines[0]);
      BlanksHaveNoTags(lines[1..]);
    }
  }

  /** The tokens that stand on tag lines outside the block. */
  function OutsideTokens(lines: seq<string>): seq<string>
    requires FeatureIndex(lines) < |lines|
  {
    TagTokens(CutOfFile(lines).above) + TagTokens(Rest(lines))
  }

  /** The state is a matter of which markers there are. */
  lemma StateIsOfMarkers(a: seq<string>, b: seq<string>)
    requires forall t :: IsMarker(t) ==> (t in a <==> t in b)
    ensures StateOf(a) == StateOf(b)
  {
    assert IsMarker(DECLINED);
    SuggestionIsHad(a);
    SuggestionIsHad(b);
    assert forall t :: IsSuggestion(t) ==> IsMarker(t);
    hide IsSuggestion;
  }

  lemma SuggestionIsHad(tokens: seq<string>)
    ensures HasSuggestion(tokens) <==> exists t :: t in tokens && IsSuggestion(t)
  {
    hide IsSuggestion;
    if t :| t in tokens && IsSuggestion(t) {
      var i :| 0 <= i < |tokens| && tokens[i] == t;
    }
  }

  lemma TagTokensOfCons(line: string, rest: seq<string>)
    ensures TagTokens([line] + rest) == (if IsTagLine(line) then Tokens(line) else []) + TagTokens(rest)
  {
    assert ([line] + rest)[1..] == rest;
  }

  lemma FirstLineIsATagLineIff(first: string, m: string, kept: seq<string>)
    requires Tokens(first) == kept + Tokens(m) && AllTagTokens(kept) && Tokens(m) != []
    ensures IsTagLine(first) <==> IsTagLine(m)
  {
    hide Tokens, IsToken, IsTag;
    if IsTagLine(first) {
      forall i | 0 <= i < |Tokens(m)| ensures IsTag(Tokens(m)[i]) { assert Tokens(m)[i] == Tokens(first)[|kept| + i]; }
    }
  }

  /** The new lines hold the markers that the marker's text would hold on lines of its own. */
  lemma NewLinesMark(block: seq<string>, feature: string, target: Target, t: string)
    requires block != [] ==> IsBlock(block)
    requires Without(block, '\n') && '\n' !in feature && IsMarker(t)
    ensures t in TagTokens(LinesOf(Replacement(block, feature, target))) <==> t in TagTokens(MarkerLines(target))
  {
    var b, kept := LinesOf(Replacement(block, feature, target)), KeptTokens(block);
    KeptAreTags(block);
    NonMarkersOf(BlockTokens(block), t);
    hide IsBlock, Replacement, NonMarkers, BlockTokens, Tokens, Without, MarkerTokens, MarkerLines, Head, AllTagTokens, IsTagLine, IsMarker;
    if target.ToNone? {
      ClearedLines(block, feature);
      ClearedHoldsKept(b);
      assert MarkerLines(target) == [] by { ClearedHasNoLines(); }
    } else {
      MarkedLines(block, feature, target);
      var m := MarkerLines(target);
      FirstLineIsATagLineIff(b[0], m[0], kept);
      TagTokensOfCons(b[0], m[1..]);
      TagTokensOfCons(m[0], m[1..]);
      assert m == [m[0]] + m[1..];
    }
  }

  lemma ClearedHasNoLines()
    ensures MarkerLines(ToNone) == [] && TagTokens(MarkerLines(ToNone)) == []
  {}

  lemma ClearedHoldsKept(b: seq<string>)
    requires |b| <= 1 && (b != [] ==> IsTagLine(b[0]))
    ensures TagTokens(b) == if b == [] then [] else Tokens(b[0])
  {
    if b != [] {
      assert b[1..] == [];
      assert Tokens(b[0]) + [] == Tokens(b[0]);
    }
  }

  /**
   * What is written reads back as the tag lines outside the block together with the marker's text on lines of its own,
   * whatever state and date it was; a file without a feature line reads as before.
   */
  lemma WrittenReadsAs(content: string, target: Target)
    requires IsWritten(target)
    ensures Serialize(content, target).Some?
    ensures Parse(Serialize(content, target).value) ==
            if HasFeature(content) then StateOf(OutsideTokens(Split(content, '\n')) + TagTokens(MarkerLines(target)))
            else Parse(content)
  {
    if HasFeature(content) {
      var lines := Split(content, '\n');
      var cut, b, rest := CutOfFile(lines), NewLines(lines, target), Rest(lines);
      LinesAfter(content, target);
      FileIsAFrame(lines);
      PiecesWithout(lines);
      BlanksHaveNoTags(cut.gap);
      hide CutOf, IsBlock, IsFeatureLine, IsTagLine, MarkerLines, Without, IsFrame, Serialize, CutOfFile, Rest, Replacement, StateOf;
      TagTokensOfConcat(cut.above, b);
      TagTokensOfConcat(cut.above + b, cut.gap);
      TagTokensOfConcat(cut.above + b + cut.gap, rest);
      var all, marks := TagTokens(Assemble(cut, b, rest)), OutsideTokens(lines) + TagTokens(MarkerLines(target));
      hide TagTokens, LinesOf, IsMarker;
      forall t | IsMarker(t) ensures t in all <==> t in marks {
        NewLinesMark(cut.block, rest[0], target, t);
      }
      StateIsOfMarkers(all, marks);
    }
  }

  /**
   * So a decline always reads as declined, and a clearance as no marker exactly when no marker stands outside the block. A
   * suggestion reads as suggested exactly when neither outside nor in its own text a decline stands on a tag line, and a
   * suggestion does; with a well-formed date, exactly when no decline stands outside.
   */
  lemma WrittenStateReadsBack(content: string, target: Target)
    requires HasFeature(content) && IsWritten(target)
    ensures Serialize(content, target).Some?
    ensures
      var outside, own := OutsideTokens(Split(content, '\n')), TagTokens(MarkerLines(target));
      var after := Parse(Serialize(content, target).value);
      match target
      case ToDeclined => after == Declined
      case ToNone => after == NoMarker <==> forall t :: t in outside ==> !IsMarker(t)
      case ToSuggested(date) =>
        && (after == Suggested <==> DECLINED !in outside && DECLINED !in own && (HasSuggestion(outside) || HasSuggestion(own)))
        && (IsDate(date) ==> (after == Suggested <==> DECLINED !in outside))
  {
    var outside, own := OutsideTokens(Split(content, '\n')), TagTokens(MarkerLines(target));
    WrittenReadsAs(content, target);
    hide HasFeature, Serialize, OutsideTokens, Parse, Split, TagTokens, MarkerLines, HasSuggestion, StateOf;
    hide IsMarker, IsDate;
    StateOfBoth(outside, own);
    match target
    case ToDeclined => DeclineIsItsOwn();
    case ToNone =>
      ClearedHasNoLines();
      assert outside + own == outside;
      NoMarkerIff(outside);
    case ToSuggested(date) => if IsDate(date) { DateIsItsOwn(date); }
  }

  lemma StateOfBoth(a: seq<string>, b: seq<string>)
    ensures StateOf(a + b) == Declined <==> DECLINED in a || DECLINED in b
    ensures StateOf(a + b) == Suggested <==> DECLINED !in a && DECLINED !in b && (HasSuggestion(a) || HasSuggestion(b))
  {
    SuggestionOfEither(a, b);
    hide HasSuggestion;
  }

  lemma SuggestionOfEither(a: seq<string>, b: seq<string>)
    ensures HasSuggestion(a + b) <==> HasSuggestion(a) || HasSuggestion(b)
  {
    SuggestionIsHad(a);
    SuggestionIsHad(b);
    SuggestionIsHad(a + b);
    hide IsSuggestion, HasSuggestion;
  }

  lemma NoMarkerIff(tokens: seq<string>)
    ensures StateOf(tokens) == NoMarker <==> forall t :: t in tokens ==> !IsMarker(t)
  {
    SuggestionIsHad(tokens);
    hide IsSuggestion, HasSuggestion;
  }

  lemma TagTokensOfWord(word: string)
    requires IsToken(word) && IsTag(word)
    ensures TagTokens([word]) == [word]
  {
    OneWord(word);
    assert [word][1..] == [];
  }

  lemma DeclineIsItsOwn()
    ensures DECLINED in TagTokens(MarkerLines(ToDeclined))
  {
    DeclinedIsAToken();
    OneWord(DECLINED);
    assert DECLINED[0] == '@';
    TagTokensOfWord(DECLINED);
  }

  lemma DateIsItsOwn(date: string)
    requires IsDate(date)
    ensures var own := TagTokens(MarkerLines(ToSuggested(date))); DECLINED !in own && HasSuggestion(own)
  {
    var token := SUGGESTED + date;
    DateIsAToken(date);
    MarkerIsAToken(date);
    MarkerIffDate(date);
    OneWord(token);
    assert token[0] == '@' && token[11] == 's' && DECLINED[11] == 'd';
    TagTokensOfWord(token);
    hide IsSuggestion, DECLINED, SUGGESTED, Tokens, TagTokens;
    assert [token][0] == token;
  }
}
