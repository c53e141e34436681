/** The promotion markers of a feature file: read from its tag lines, written into the tag block above `Feature:`. */
module PromotionTags {
  import opened JsStrings

  datatype State = NoMarker | Suggested | Declined

  const DECLINED := "@promotion-declined"
  const SUGGESTED := "@promotion-suggested-"

  predicate IsDigit(c: char) {
    '0' <= c <= '9'
  }

  /** `\d{4}-\d{2}-\d{2}` */
  predicate IsDate(s: string) {
    |s| == 10 && forall i :: 0 <= i < 10 ==> if i == 4 || i == 7 then s[i] == '-' else IsDigit(s[i])
  }

  predicate IsSuggestion(token: string) {
    StartsWith(token, SUGGESTED) && IsDate(token[|SUGGESTED|..])
  }

  predicate IsMarker(token: string) {
    token == DECLINED || IsSuggestion(token)
  }

  predicate IsTag(token: string) {
    token != "" && token[0] == '@'
  }

  predicate AllTags(tokens: seq<string>) {
    forall i :: 0 <= i < |tokens| ==> IsTag(tokens[i])
  }

  predicate IsTagLine(line: string) {
    Tokens(line) != [] && AllTags(Tokens(line))
  }

  function TagTokens(lines: seq<string>): seq<string> {
    if lines == [] then [] else (if IsTagLine(lines[0]) then Tokens(lines[0]) else []) + TagTokens(lines[1..])
  }

  predicate HasSuggestion(tokens: seq<string>) {
    exists i :: 0 <= i < |tokens| && IsSuggestion(tokens[i])
  }

  function StateOf(tokens: seq<string>): State {
    if DECLINED in tokens then Declined else if HasSuggestion(tokens) then Suggested else NoMarker
  }

  function Parse(content: string): State {
    StateOf(TagTokens(Split(content, '\n')))
  }

  // ---------------------------------------------------------------- the block above the feature line

  predicate IsFeatureLine(line: string) {
    StartsWith(TrimStart(line), "Feature:")
  }

  function FeatureIndex(lines: seq<string>): (k: nat)
    ensures k <= |lines|
    ensures forall i :: 0 <= i < k ==> !IsFeatureLine(lines[i])
    ensures k < |lines| ==> IsFeatureLine(lines[k])
  {
    if lines == [] || IsFeatureLine(lines[0]) then 0 else 1 + FeatureIndex(lines[1..])
  }

  /** The lines above `Feature:`, cut in three: what is kept, the tag block, and the blank lines between it and `Feature:`. */
  datatype Cut = Cut(above: seq<string>, block: seq<string>, gap: seq<string>)

  function Front<T>(xs: seq<T>): seq<T>
    requires xs != []
  {
    xs[..|xs| - 1]
  }

  function GapStart(lines: seq<string>): (k: nat)
    ensures k <= |lines|
    ensures forall i :: k <= i < |lines| ==> IsBlank(lines[i])
    ensures k > 0 ==> !IsBlank(lines[k - 1])
  {
    if lines != [] && IsBlank(Last(lines)) then GapStart(Front(lines)) else |lines|
  }

  /** Where the topmost tag line is that only tag lines and blank lines separate from the end, or `best`. */
  function BlockStart(lines: seq<string>, best: nat): (k: nat)
    ensures k == best || (k < |lines| && IsTagLine(lines[k]))
    decreases |lines|
  {
    if lines == [] then best
    else if IsTagLine(Last(lines)) then BlockStart(Front(lines), |lines| - 1)
    else if IsBlank(Last(lines)) then BlockStart(Front(lines), best)
    else best
  }

  function CutOf(lines: seq<string>): Cut {
    var g := GapStart(lines);
    if g == 0 || !IsTagLine(lines[g - 1]) then Cut(lines, [], [])
    else var b := BlockStart(lines[..g], g); Cut(lines[..Min(b, g)], lines[Min(b, g)..g], lines[g..])
  }

  lemma GapStartStep(lines: seq<string>, i: nat)
    requires i <= |lines|
    ensures GapStart(lines[..i]) == if i > 0 && IsBlank(lines[i - 1]) then GapStart(lines[..i - 1]) else i
  {
    hide IsBlank;
    if i > 0 { assert Last(lines[..i]) == lines[i - 1] && Front(lines[..i]) == lines[..i - 1]; }
  }

  lemma BlockStartStep(lines: seq<string>, i: nat, best: nat)
    requires i <= |lines|
    ensures BlockStart(lines[..i], best) ==
            if i == 0 then best
            else if IsTagLine(lines[i - 1]) then BlockStart(lines[..i - 1], i - 1)
            else if IsBlank(lines[i - 1]) then BlockStart(lines[..i - 1], best)
            else best
  {
    hide IsBlank, IsTagLine;
    if i > 0 { assert Last(lines[..i]) == lines[i - 1] && Front(lines[..i]) == lines[..i - 1]; }
  }

  /** Where the backward walk stands: the lines from `i + 1` on have been seen. */
  predicate Walked(lines: seq<string>, featureIdx: nat, i: int, first: int, last: int) {
    && -1 <= i < featureIdx <= |lines|
    && (if last == -1 then first == -1 && GapStart(lines[..featureIdx]) == GapStart(lines[..i + 1])
        else
          && i < first <= last < featureIdx && IsTagLine(lines[last])
          && GapStart(lines[..featureIdx]) == last + 1
          && BlockStart(lines[..last + 1], last + 1) == BlockStart(lines[..i + 1], first))
  }

  lemma WalkStep(lines: seq<string>, featureIdx: nat, i: int, first: int, last: int)
    requires Walked(lines, featureIdx, i, first, last) && i >= 0
    ensures IsTagLine(lines[i]) ==> Walked(lines, featureIdx, i - 1, i, if last == -1 then i else last)
    ensures IsBlank(lines[i]) ==> !IsTagLine(lines[i]) && Walked(lines, featureIdx, i - 1, first, last)
  {
    hide IsTagLine, IsBlank, GapStart, BlockStart;
    TagLineIsNotBlank(lines[i]);
    GapStartStep(lines, i + 1);
    BlockStartStep(lines, i + 1, if last == -1 then i + 1 else first);
  }

  lemma WalkEnds(lines: seq<string>, featureIdx: nat, i: int, first: int, last: int)
    requires Walked(lines, featureIdx, i, first, last) || (featureIdx == 0 && i == first == last == -1)
    requires i == -1 || (!IsTagLine(lines[i]) && !IsBlank(lines[i]))
    ensures last == -1 && featureIdx <= |lines| ==> CutOf(lines[..featureIdx]) == Cut(lines[..featureIdx], [], [])
    ensures last != -1 ==>
              && 0 <= first <= last < featureIdx
              && CutOf(lines[..featureIdx]) == Cut(lines[..first], lines[first..last + 1], lines[last + 1..featureIdx])
  {
    hide IsTagLine, IsBlank, GapStart, BlockStart, CutOf;
    if last == -1 {
      if featureIdx <= |lines| {
        GapStartStep(lines, i + 1);
        NothingAtBounds(lines, featureIdx);
      }
    } else {
      BlockStartStep(lines, i + 1, first);
      CutAtBounds(lines, featureIdx, first, last);
    }
  }

  method FindFeatureTagBlockBounds(lines: seq<string>, featureIdx: nat) returns (bounds: Option<(nat, nat)>)
    requires featureIdx <= |lines|
    ensures match bounds
            case None => CutOf(lines[..featureIdx]) == Cut(lines[..featureIdx], [], [])
            case Some((first, last)) =>
              && first <= last < featureIdx
              && CutOf(lines[..featureIdx]) == Cut(lines[..first], lines[first..last + 1], lines[last + 1..featureIdx])
  {
    hide IsTagLine, IsBlank, CutOf, GapStart, BlockStart;
    var first, last := -1, -1;
    var i: int := featureIdx - 1;
    while i >= 0
      invariant Walked(lines, featureIdx, i, first, last) || (featureIdx == 0 && i == first == last == -1)
    {
      WalkStep(lines, featureIdx, i, first, last);
      if IsTagLine(lines[i]) {
        if last == -1 { last := i; }
        first := i;
      } else if !IsBlank(lines[i]) {
        break;
      }
      i := i - 1;
    }
    WalkEnds(lines, featureIdx, i, first, last);
    return if last == -1 then None else Some((first, last));
  }

  lemma NothingAtBounds(lines: seq<string>, featureIdx: nat)
    requires featureIdx <= |lines|
    requires var g := GapStart(lines[..featureIdx]); g == 0 || !IsTagLine(lines[g - 1])
    ensures CutOf(lines[..featureIdx]) == Cut(lines[..featureIdx], [], [])
  {
    hide IsTagLine, IsBlank;
  }

  lemma CutAtBounds(lines: seq<string>, featureIdx: nat, first: nat, last: nat)
    requires first <= last < featureIdx <= |lines| && IsTagLine(lines[last])
    requires GapStart(lines[..featureIdx]) == last + 1 && BlockStart(lines[..last + 1], last + 1) == first
    ensures CutOf(lines[..featureIdx]) == Cut(lines[..first], lines[first..last + 1], lines[last + 1..featureIdx])
  {
    hide IsTagLine, IsBlank, GapStart, BlockStart;
    assert lines[..featureIdx][last] == lines[last];
    assert lines[..featureIdx][..last + 1] == lines[..last + 1];
  }

  lemma TagLineIsNotBlank(line: string)
    ensures IsTagLine(line) ==> !IsBlank(line)
  {
    if IsBlank(line) { TokensOfBlank(line); }
  }

  // ---------------------------------------------------------------- writing

  datatype Target = ToNone | ToDeclined | ToSuggested(date: string)

  function BlockTokens(block: seq<string>): seq<string> {
    if block == [] then [] else Tokens(block[0]) + BlockTokens(block[1..])
  }

  function NonMarkers(tokens: seq<string>): seq<string> {
    if tokens == [] then [] else (if IsMarker(tokens[0]) then [] else [tokens[0]]) + NonMarkers(tokens[1..])
  }

  function MarkerOf(target: Target): seq<string> {
    match target
    case ToNone => []
    case ToDeclined => [DECLINED]
    case ToSuggested(date) => [SUGGESTED + date]
  }

  function TargetTokens(existing: seq<string>, target: Target): seq<string> {
    NonMarkers(existing) + MarkerOf(target)
  }

  function Indent(line: string): (space: string)
    ensures |space| <= |line| && space == line[..|space|] && IsBlank(space)
  {
    if line != "" && IsSpace(line[0]) then [line[0]] + Indent(line[1..]) else ""
  }

  /** The one line, or none, that stands for the block afterwards. */
  function Replacement(block: seq<string>, feature: string, target: Target): seq<string> {
    var tokens := TargetTokens(BlockTokens(block), target);
    if tokens == [] then [] else [Indent(if block != [] then block[0] else feature) + Join(tokens, " ")]
  }

  function Assemble(cut: Cut, block: seq<string>, rest: seq<string>): seq<string> {
    cut.above + block + cut.gap + rest
  }

  function Rewritten(lines: seq<string>, target: Target): seq<string>
    requires FeatureIndex(lines) < |lines|
  {
    var f := FeatureIndex(lines);
    var cut := CutOf(lines[..f]);
    Assemble(cut, Replacement(cut.block, lines[f], target), lines[f..])
  }

  /** `None` is the error for a suggestion without a date. */
  function Serialize(content: string, target: Target): Option<string> {
    var lines := Split(content, '\n');
    if target == ToSuggested("") then None
    else if FeatureIndex(lines) == |lines| then Some(content)
    else Some(Join(Rewritten(lines, target), "\n"))
  }

  /** `lines.splice(start, length, ...replacement)` */
  function Splice(lines: seq<string>, start: nat, length: nat, replacement: seq<string>): seq<string>
    requires start + length <= |lines|
  {
    lines[..start] + replacement + lines[start + length..]
  }

  lemma SpliceAssembles(lines: seq<string>, f: nat, start: nat, length: nat, replacement: seq<string>)
    requires start + length <= f <= |lines|
    ensures Splice(lines, start, length, replacement) ==
            Assemble(Cut(lines[..start], lines[start..start + length], lines[start + length..f]), replacement, lines[f..])
  {
    assert lines[start + length..] == lines[start + length..f] + lines[f..];
  }

  method ReplacementLine(block: seq<string>, feature: string, target: Target) returns (replacement: seq<string>)
    ensures replacement == Replacement(block, feature, target)
  {
    var tokens := TargetTokens(BlockTokens(block), target);
    var indent := Indent(if block != [] then block[0] else feature);
    replacement := if |tokens| > 0 then [indent + Join(tokens, " ")] else [];
  }

  method RewriteBlock(lines: seq<string>, featureIdx: nat, target: Target) returns (result: seq<string>)
    requires featureIdx == FeatureIndex(lines) < |lines|
    ensures result == Rewritten(lines, target)
  {
    hide CutOf, Replacement, Splice, Assemble, IsFeatureLine;
    var bounds := FindFeatureTagBlockBounds(lines, featureIdx);
    var blockStart, blockLength := featureIdx, 0;
    if bounds.Some? {
      blockStart, blockLength := bounds.value.0, bounds.value.1 - bounds.value.0 + 1;
    } else {
      assert lines[featureIdx..featureIdx] == [];
    }
    ghost var cut := Cut(lines[..blockStart], lines[blockStart..blockStart + blockLength], lines[blockStart + blockLength..featureIdx]);
    assert CutOf(lines[..featureIdx]) == cut;
    var replacement := ReplacementLine(lines[blockStart..blockStart + blockLength], lines[featureIdx], target);
    result := Splice(lines, blockStart, blockLength, replacement);
    SpliceAssembles(lines, featureIdx, blockStart, blockLength, replacement);
    assert result == Assemble(cut, replacement, lines[featureIdx..]);
  }

  method SerializePromotionTagState(content: string, target: Target) returns (result: Option<string>)
    ensures result == Serialize(content, target)
  {
    if target == ToSuggested("") { return None; }
    var lines := Split(content, '\n');
    var featureIdx := FeatureIndex(lines);
    if featureIdx == |lines| { return Some(content); }
    var rewritten := RewriteBlock(lines, featureIdx, target);
    return Some(Join(rewritten, "\n"));
  }

  // ---------------------------------------------------------------- cutting what was written

  /** Going up from the end of these lines, past blank ones, meets no tag line. */
  predicate Closed(lines: seq<string>) {
    lines == [] || (IsBlank(Last(lines)) && Closed(Front(lines))) || (!IsBlank(Last(lines)) && !IsTagLine(Last(lines)))
  }

  predicate AllBlank(lines: seq<string>) {
    forall i :: 0 <= i < |lines| ==> IsBlank(lines[i])
  }

  /** Tag lines and blank lines, with a tag line at both ends. */
  predicate IsBlock(lines: seq<string>) {
    && lines != [] && IsTagLine(lines[0]) && IsTagLine(Last(lines))
    && forall i :: 0 <= i < |lines| ==> IsTagLine(lines[i]) || IsBlank(lines[i])
  }

  predicate IsCut(cut: Cut) {
    Closed(cut.above) && AllBlank(cut.gap) && (if cut.block == [] then cut.gap == [] else IsBlock(cut.block))
  }

  lemma {:induction false} ClosedBlanks(lines: seq<string>, blanks: seq<string>)
    requires Closed(lines) && AllBlank(blanks)
    ensures Closed(lines + blanks)
  {
    if blanks == [] {
      assert lines + blanks == lines;
    } else {
      assert Front(lines + blanks) == lines + Front(blanks) && Last(lines + blanks) == Last(blanks);
      ClosedBlanks(lines, Front(blanks));
    }
  }

  lemma {:induction false} GapStartBehind(lines: seq<string>, blanks: seq<string>)
    requires AllBlank(blanks) && (lines != [] ==> !IsBlank(Last(lines)))
    ensures GapStart(lines + blanks) == |lines|
  {
    hide IsBlank;
    if blanks == [] {
      assert lines + blanks == lines;
    } else {
      assert Front(lines + blanks) == lines + Front(blanks) && Last(lines + blanks) == Last(blanks);
      GapStartBehind(lines, Front(blanks));
    }
  }

  lemma {:induction false} BlockStartOfClosed(lines: seq<string>, best: nat)
    requires Closed(lines)
    ensures BlockStart(lines, best) == best
  {
    if lines != [] {
      TagLineIsNotBlank(Last(lines));
      hide IsTagLine, IsBlank;
      if IsBlank(Last(lines)) { BlockStartOfClosed(Front(lines), best); }
    }
  }

  lemma {:induction false} BlockStartBehind(above: seq<string>, block: seq<string>, best: nat)
    requires Closed(above) && block != [] && IsTagLine(block[0])
    requires forall i :: 0 <= i < |block| ==> IsTagLine(block[i]) || IsBlank(block[i])
    ensures BlockStart(above + block, best) == |above|
    decreases |block|
  {
    hide IsTagLine, IsBlank;
    assert Last(above + block) == Last(block) && Front(above + block) == above + Front(block);
    if |block| == 1 {
      assert Front(above + block) == above;
      BlockStartOfClosed(above, |above|);
    } else {
      BlockStartBehind(above, Front(block), if IsTagLine(Last(block)) then |above| + |block| - 1 else best);
    }
  }

  /** There is one way to cut lines like this, and it is the one that is found. */
  lemma CutIsFound(cut: Cut)
    requires IsCut(cut)
    ensures cut.block == [] ==> CutOf(cut.above) == cut
    ensures cut.block != [] ==> CutOf(cut.above + cut.block + cut.gap) == cut
  {
    if cut.block == [] {
      NothingToCut(cut.above);
    } else {
      var upTo, lines := cut.above + cut.block, cut.above + cut.block + cut.gap;
      assert Last(upTo) == Last(cut.block);
      TagLineIsNotBlank(Last(cut.block));
      GapStartBehind(upTo, cut.gap);
      assert lines[..|upTo|] == upTo && lines[|upTo| - 1] == Last(cut.block);
      BlockStartBehind(cut.above, cut.block, |upTo|);
      hide IsTagLine, IsBlank;
      assert lines[..|cut.above|] == cut.above && lines[|cut.above|..|upTo|] == cut.block && lines[|upTo|..] == cut.gap;
    }
  }

  lemma {:induction false} ClosedHasNoTagAboveGap(lines: seq<string>)
    requires Closed(lines)
    ensures var g := GapStart(lines); g == 0 || !IsTagLine(lines[g - 1])
  {
    hide IsTagLine, IsBlank;
    if lines != [] && IsBlank(Last(lines)) { ClosedHasNoTagAboveGap(Front(lines)); }
  }

  lemma NothingToCut(lines: seq<string>)
    requires Closed(lines)
    ensures CutOf(lines) == Cut(lines, [], [])
  {
    ClosedHasNoTagAboveGap(lines);
  }

  lemma {:induction false} ClosedAboveGap(lines: seq<string>)
    requires var g := GapStart(lines); g == 0 || !IsTagLine(lines[g - 1])
    ensures Closed(lines)
  {
    hide IsTagLine, IsBlank;
    if lines != [] && IsBlank(Last(lines)) { ClosedAboveGap(Front(lines)); }
  }

  lemma {:induction false} BlockStartIsTop(lines: seq<string>, best: nat)
    requires best >= |lines|
    ensures var k := BlockStart(lines, best);
            && (k == best ==> Closed(lines))
            && (k < |lines| ==> Closed(lines[..k]) && forall i :: k <= i < |lines| ==> IsTagLine(lines[i]) || IsBlank(lines[i]))
  {
    hide IsTagLine, IsBlank;
    if lines != [] {
      TagLineIsNotBlank(Last(lines));
      var front := Front(lines);
      if IsTagLine(Last(lines)) {
        BlockStartIsTop(front, |front|);
        assert lines[..|front|] == front;
      } else if IsBlank(Last(lines)) {
        BlockStartIsTop(front, best);
      }
      var k := BlockStart(lines, best);
      assert k < |front| ==> lines[..k] == front[..k];
    }
  }

  lemma BlockFoundIsBlock(lines: seq<string>)
    requires lines != [] && IsTagLine(Last(lines))
    ensures var b := BlockStart(lines, |lines|); b < |lines| && Closed(lines[..b]) && IsBlock(lines[b..])
  {
    hide IsTagLine, IsBlank, Closed, BlockStart;
    BlockStartIsTop(lines, |lines|);
    TagLineAtEndIsOpen(lines);
    var b := BlockStart(lines, |lines|);
    SuffixIsBlock(lines, b);
  }

  lemma SuffixIsBlock(lines: seq<string>, b: nat)
    requires b < |lines| && IsTagLine(lines[b]) && IsTagLine(Last(lines))
    requires forall i :: b <= i < |lines| ==> IsTagLine(lines[i]) || IsBlank(lines[i])
    ensures IsBlock(lines[b..])
  {
    hide IsTagLine, IsBlank;
    var block := lines[b..];
    forall i | 0 <= i < |block| ensures IsTagLine(block[i]) || IsBlank(block[i]) { assert block[i] == lines[b + i]; }
  }

  lemma TagLineAtEndIsOpen(lines: seq<string>)
    requires lines != [] && IsTagLine(Last(lines))
    ensures !Closed(lines)
  {
    TagLineIsNotBlank(Last(lines));
    hide IsTagLine, IsBlank;
  }

  /** What is found is such a cut of the lines. */
  lemma FoundCutIsCut(lines: seq<string>)
    ensures var cut := CutOf(lines); IsCut(cut) && cut.above + cut.block + cut.gap == lines
  {
    var g := GapStart(lines);
    hide IsTagLine, IsBlank, Closed;
    if g == 0 || !IsTagLine(lines[g - 1]) {
      ClosedAboveGap(lines);
    } else {
      assert Last(lines[..g]) == lines[g - 1];
      BlockFoundIsBlock(lines[..g]);
      hide IsBlock;
      var b := BlockStart(lines[..g], g);
      assert lines[..b] == lines[..g][..b] && lines[b..g] == lines[..g][b..];
    }
  }
}
