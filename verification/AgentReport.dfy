/** What the result of an agent run says, told from the lines the agent printed and from nothing else. */
module AgentReport {
  import opened JsStrings
  import opened StreamParser
  import opened AgentHandler

  // ---------------------------------------------------------------- what the lines say

  /** A further line that its newline has ended is read too, unless it is blank. */
  lemma OneLineMore(text: string, line: string)
    requires (text == "" || Last(text) == '\n') && '\n' !in line
    ensures CompleteLines(text + (line + "\n")) == CompleteLines(text) + if IsBlank(line) then [] else [line]
    ensures CompleteLines(text + line) == CompleteLines(text)
  {
    hide IsBlank, CompleteLines, NonBlank, Parts, Tail;
    TailIsEmpty(text);
    LinesOfConcat(text, line + "\n");
    LinesOfConcat(text, line);
    assert "" + (line + "\n") == line + "\n" && "" + line == line;
    LinesOfLine(line);
    assert CompleteLines(text) + [] == CompleteLines(text);
  }

  lemma LinesOfLine(line: string)
    requires '\n' !in line
    ensures CompleteLines(line + "\n") == if IsBlank(line) then [] else [line]
    ensures CompleteLines(line) == []
  {
    PartsOfLine(line);
    OneOfNonBlank(line);
    CompleteLinesAre(line);
    CompleteLinesAre(line + "\n");
    hide IsBlank, CompleteLines, NonBlank, Parts;
    assert [line, ""][..1] == [line] && [line][..0] == [];
  }

  lemma CompleteLinesAre(text: string)
    ensures CompleteLines(text) == NonBlank(Parts(text)[..|Parts(text)| - 1])
  {}

  lemma PartsOfLine(line: string)
    requires '\n' !in line
    ensures Parts(line) == [line] && Parts(line + "\n") == [line, ""]
  {
    SplitWithout(line, '\n');
    SplitAround(line, "", '\n');
    assert line + ['\n'] + "" == line + "\n";
    assert Split("", '\n') == [""];
  }

  lemma OneOfNonBlank(line: string)
    ensures NonBlank([line]) == (if IsBlank(line) then [] else [line]) && NonBlank([]) == []
  {
    hide IsBlank;
    assert [line][1..] == [];
  }

  lemma TailIsEmpty(text: string)
    requires text == "" || Last(text) == '\n'
    ensures Tail(text) == ""
  {
    if text == "" {
      assert Split("", '\n') == [""];
    } else {
      var front := text[..|text| - 1];
      assert text == front + ['\n'] + "";
      SplitAround(front, "", '\n');
      assert Split("", '\n') == [""];
    }
  }

  predicate IsResult(parse: JsonParser, line: string) {
    parse(line).Some? && parse(line).value.Result?
  }

  /** The last result line, if there is one. */
  predicate IsLastResult(parse: JsonParser, lines: seq<string>, k: nat) {
    k < |lines| && IsResult(parse, lines[k]) && forall i :: k < i < |lines| ==> !IsResult(parse, lines[i])
  }

  predicate HasResult(parse: JsonParser, lines: seq<string>) {
    exists k :: 0 <= k < |lines| && IsResult(parse, lines[k])
  }

  /** The text blocks of a message, each ended by a newline. */
  function Texts(blocks: seq<Block>): seq<string> {
    if blocks == [] then [] else (if blocks[0].TextBlock? then [blocks[0].text + "\n"] else []) + Texts(blocks[1..])
  }

  /** What a line adds to the output: an assistant's texts, or the line itself when it cannot be read. */
  function Printed(parse: JsonParser, line: string): string {
    match parse(line)
    case None => line + "\n"
    case Some(Assistant(Unreadable)) => line + "\n"
    case Some(Assistant(Blocks(blocks))) => Concat(Texts(blocks))
    case _ => ""
  }

  function AllPrinted(parse: JsonParser, lines: seq<string>): string {
    if lines == [] then "" else Printed(parse, lines[0]) + AllPrinted(parse, lines[1..])
  }

  /** A denied call is a tool result with an error, on a line of its own or within an assistant's message. */
  function DeniedBy(parse: JsonParser, line: string): nat {
    match parse(line)
    case Some(ToolResultLine(isError)) => if isError then 1 else 0
    case Some(Assistant(Blocks(blocks))) => |Errored(blocks)|
    case _ => 0
  }

  function Errored(blocks: seq<Block>): seq<Block> {
    if blocks == [] then [] else (if blocks[0] == ToolResult(true) then [blocks[0]] else []) + Errored(blocks[1..])
  }

  function AllDenied(parse: JsonParser, lines: seq<string>): nat {
    if lines == [] then 0 else DeniedBy(parse, lines[0]) + AllDenied(parse, lines[1..])
  }

  lemma ConcatOfCons(first: string, rest: seq<string>)
    ensures Concat([first] + rest) == first + Concat(rest)
  {
    assert ([first] + rest)[1..] == rest;
  }

  lemma {:induction false} TextsAreTheText(blocks: seq<Block>)
    ensures TextOf(blocks) == Concat(Texts(blocks))
  {
    if blocks != [] {
      TextsAreTheText(blocks[1..]);
      if blocks[0].TextBlock? { ConcatOfCons(blocks[0].text + "\n", Texts(blocks[1..])); }
      hide Concat;
      assert "" + TextOf(blocks[1..]) == TextOf(blocks[1..]) && [] + Texts(blocks[1..]) == Texts(blocks[1..]);
    }
  }

  lemma {:induction false} ErroredAreCounted(blocks: seq<Block>)
    ensures ErroredResults(blocks) == |Errored(blocks)|
  {
    if blocks != [] { ErroredAreCounted(blocks[1..]); }
  }

  /** What one line adds to the report: its output, its denied calls, and its result if it is one. */
  predicate Adds(parse: JsonParser, f: Facts, line: string, after: Facts) {
    && after.fullOutput == f.fullOutput + Printed(parse, line)
    && after.denied == f.denied + DeniedBy(parse, line)
    && after.lastResult == if IsResult(parse, line) then Some(parse(line).value.envelope) else f.lastResult
  }

  lemma OneLineOfReport(parse: JsonParser, f: Facts, line: string)
    ensures Adds(parse, f, line, LineEffect(parse, f, line))
  {
    hide AssistantEffect, CaughtEffect, MessageEffect;
    match parse(line)
    case None =>
      CaughtReports(f, line);
    case Some(Assistant(content)) =>
      AssistantReports(parse, f, line, content);
    case Some(m) =>
      MessageReports(f, m, line);
      assert f.fullOutput + "" == f.fullOutput;
  }

  lemma CaughtReports(f: Facts, line: string)
    ensures CaughtEffect(f, line) == f.(fullOutput := f.fullOutput + (line + "\n"))
  {
    assert f.fullOutput + line + "\n" == f.fullOutput + (line + "\n");
  }

  lemma AssistantReports(parse: JsonParser, f: Facts, line: string, content: Content)
    requires parse(line) == Some(Assistant(content))
    ensures Adds(parse, f, line, LineEffect(parse, f, line))
  {
    CaughtReports(f.(turnCount := f.turnCount + 1), line);
    var blocks := if content.Blocks? then content.blocks else [];
    TextsAreTheText(blocks);
    ErroredAreCounted(blocks);
    assert TextOf([]) == "" && ErroredResults([]) == 0 && f.fullOutput + "" == f.fullOutput;
    hide TextOf, ErroredResults, Texts, Errored, ToolUses, ToolProgresses, Trim, Concat, CaughtEffect;
  }

  lemma MessageReports(f: Facts, m: Message, line: string)
    requires !m.Assistant?
    ensures
      var after := MessageEffect(f, m, line);
      && after.fullOutput == f.fullOutput
      && after.denied == f.denied + (if m.ToolResultLine? && m.isError then 1 else 0)
      && after.lastResult == if m.Result? then Some(m.envelope) else f.lastResult
  {
    hide SignalEffect, ClassifyApiSignal;
  }

  /** The output is what the lines print, one after the other, and the denied calls are those of the lines together. */
  lemma {:induction false} OutputIsWhatTheLinesPrint(parse: JsonParser, f: Facts, lines: seq<string>)
    ensures Fold(parse, f, lines).fullOutput == f.fullOutput + AllPrinted(parse, lines)
    ensures Fold(parse, f, lines).denied == f.denied + AllDenied(parse, lines)
    decreases |lines|
  {
    hide LineEffect, Printed, DeniedBy;
    if lines == [] {
      assert f.fullOutput + "" == f.fullOutput;
    } else {
      var after := LineEffect(parse, f, lines[0]);
      OneLineOfReport(parse, f, lines[0]);
      OutputIsWhatTheLinesPrint(parse, after, lines[1..]);
      assert f.fullOutput + (Printed(parse, lines[0]) + AllPrinted(parse, lines[1..])) == after.fullOutput + AllPrinted(parse, lines[1..]);
    }
  }

  /** The result that counts is that of the last result line. */
  lemma {:induction false} LastResultWins(parse: JsonParser, f: Facts, lines: seq<string>, k: nat)
    requires IsLastResult(parse, lines, k)
    ensures Fold(parse, f, lines).lastResult == Some(parse(lines[k]).value.envelope)
    decreases |lines|
  {
    hide LineEffect;
    OneLineOfReport(parse, f, lines[0]);
    var after := LineEffect(parse, f, lines[0]);
    if k > 0 {
      assert forall i :: 0 < i < |lines| ==> lines[i] == lines[1..][i - 1];
      LastResultWins(parse, after, lines[1..], k - 1);
    } else {
      assert !HasResult(parse, lines[1..]);
      NoResultKeepsIt(parse, after, lines[1..]);
    }
  }

  lemma {:induction false} NoResultKeepsIt(parse: JsonParser, f: Facts, lines: seq<string>)
    requires !HasResult(parse, lines)
    ensures Fold(parse, f, lines).lastResult == f.lastResult
    decreases |lines|
  {
    hide LineEffect;
    if lines != [] {
      OneLineOfReport(parse, f, lines[0]);
      assert !HasResult(parse, lines[1..]) by { assert forall i :: 0 < i < |lines| ==> lines[i] == lines[1..][i - 1]; }
      NoResultKeepsIt(parse, LineEffect(parse, f, lines[0]), lines[1..]);
    }
  }

  lemma {:induction false} ThereIsALastResult(parse: JsonParser, lines: seq<string>) returns (k: nat)
    requires HasResult(parse, lines)
    ensures IsLastResult(parse, lines, k)
    decreases |lines|
  {
    if IsResult(parse, Last(lines)) {
      k := |lines| - 1;
    } else {
      k := ThereIsALastResult(parse, lines[..|lines| - 1]);
    }
  }

  // ---------------------------------------------------------------- what is called back

  function Uses(blocks: seq<Block>): (uses: seq<Block>)
    ensures forall i :: 0 <= i < |uses| ==> uses[i].ToolUse?
  {
    if blocks == [] then [] else (if blocks[0].ToolUse? then [blocks[0]] else []) + Uses(blocks[1..])
  }

  function Numbered(uses: seq<Block>, turn: nat, before: nat): seq<Progress>
    requires forall i :: 0 <= i < |uses| ==> uses[i].ToolUse?
  {
    seq(|uses|, i requires 0 <= i < |uses| => ToolProgress(uses[i].name, Prefix(uses[i].input, 200), turn, before + i + 1))
  }

  /** The callbacks of one assistant message: one for each tool, numbered on from those before it, then its trimmed text. */
  function Callbacks(blocks: seq<Block>, turn: nat, before: nat): seq<Progress> {
    var text := Trim(Concat(Texts(blocks)));
    Numbered(Uses(blocks), turn, before) + if text != "" then [TextProgress(Prefix(text, 500), turn)] else []
  }

  /** The message of an assistant line, as far as its content can be read. */
  function BlocksOf(parse: JsonParser, line: string): seq<Block> {
    match parse(line)
    case Some(Assistant(Blocks(blocks))) => blocks
    case _ => []
  }

  function AllCallbacks(parse: JsonParser, lines: seq<string>, turn: nat, before: nat): seq<Progress> {
    if lines == [] then []
    else if !IsAssistant(parse, lines[0]) then AllCallbacks(parse, lines[1..], turn, before)
    else
      Callbacks(BlocksOf(parse, lines[0]), turn + 1, before)
      + AllCallbacks(parse, lines[1..], turn + 1, before + |Uses(BlocksOf(parse, lines[0]))|)
  }

  lemma {:induction false} UsesAreToolUses(blocks: seq<Block>)
    ensures Uses(blocks) == ToolUses(blocks)
  {
    if blocks != [] { UsesAreToolUses(blocks[1..]); }
  }

  lemma {:induction false} NumberedOn(tools: seq<Block>, turn: nat, before: nat)
    requires forall i :: 0 <= i < |tools| ==> tools[i].ToolUse?
    ensures ToolProgresses(tools, turn, before) == Numbered(tools, turn, before)
    decreases |tools|
  {
    hide Prefix;
    if tools != [] {
      NumberedOn(tools[1..], turn, before + 1);
      hide ToolProgresses;
      NumberedFirst(tools, turn, before);
      hide Numbered;
      NextToolProgress(tools, 0, turn, before);
      assert tools[0..] == tools;
    }
  }

  lemma NumberedFirst(tools: seq<Block>, turn: nat, before: nat)
    requires tools != [] && forall i :: 0 <= i < |tools| ==> tools[i].ToolUse?
    ensures Numbered(tools, turn, before) ==
            [ToolProgress(tools[0].name, Prefix(tools[0].input, 200), turn, before + 1)] + Numbered(tools[1..], turn, before + 1)
  {
    hide Prefix;
  }

  lemma AssistantCallsBack(f: Facts, blocks: seq<Block>)
    ensures AssistantEffect(f, blocks).progress == f.progress + Callbacks(blocks, f.turnCount + 1, f.toolCount)
    ensures AssistantEffect(f, blocks).toolCount == f.toolCount + |Uses(blocks)|
    ensures AssistantEffect(f, blocks).turnCount == f.turnCount + 1
  {
    UsesAreToolUses(blocks);
    TextsAreTheText(blocks);
    NumberedOn(Uses(blocks), f.turnCount + 1, f.toolCount);
    hide TextOf, Texts, ToolUses, Uses, ToolProgresses, Numbered, Trim, Prefix, ErroredResults;
  }

  lemma NoBlocksCallNothing(turn: nat, before: nat)
    ensures Callbacks([], turn, before) == [] && Uses([]) == []
  {}

  lemma OneLineOfCallbacks(parse: JsonParser, f: Facts, line: string)
    ensures
      var after, blocks := LineEffect(parse, f, line), BlocksOf(parse, line);
      if IsAssistant(parse, line) then
        && after.progress == f.progress + Callbacks(blocks, f.turnCount + 1, f.toolCount)
        && after.toolCount == f.toolCount + |Uses(blocks)| && after.turnCount == f.turnCount + 1
      else after.progress == f.progress && after.toolCount == f.toolCount && after.turnCount == f.turnCount
  {
    AssistantCallsBack(f, BlocksOf(parse, line));
    NoBlocksCallNothing(f.turnCount + 1, f.toolCount);
    hide AssistantEffect, Callbacks, Uses, SignalEffect, ClassifyApiSignal;
  }

  /** The callbacks are those of the assistant lines in order, tools and turns numbered from the first line on. */
  lemma {:induction false} CallbacksAreTheAssistants(parse: JsonParser, f: Facts, lines: seq<string>)
    ensures Fold(parse, f, lines).progress == f.progress + AllCallbacks(parse, lines, f.turnCount, f.toolCount)
    decreases |lines|
  {
    hide LineEffect, Callbacks, Uses, BlocksOf, IsAssistant;
    if lines == [] {
      assert f.progress + [] == f.progress;
    } else {
      var after, blocks := LineEffect(parse, f, lines[0]), BlocksOf(parse, lines[0]);
      OneLineOfCallbacks(parse, f, lines[0]);
      CallbacksAreTheAssistants(parse, after, lines[1..]);
      var rest := AllCallbacks(parse, lines[1..], after.turnCount, after.toolCount);
      var now := Callbacks(blocks, f.turnCount + 1, f.toolCount);
      assert f.progress + now + rest == f.progress + (now + rest);
    }
  }

  // ---------------------------------------------------------------- what the result says

  function LinesOf(chunks: seq<string>): seq<string> {
    CompleteLines(Concat(chunks))
  }

  /** Some line signalled a rate limit or an outage. */
  predicate IsLimited(parse: JsonParser, lines: seq<string>) {
    SomeLineRaises(parse, lines, RateLimitFlag) || SomeLineRaises(parse, lines, ServerFlag) || SomeLineRaises(parse, lines, OverloadedFlag)
  }

  predicate SomeLineRaises(parse: JsonParser, lines: seq<string>, flag: Flag) {
    exists i :: 0 <= i < |lines| && LineRaises(parse, lines[i], flag)
  }

  /** The text a result gives: that of the last result line, or all that was printed when there is none or it is empty. */
  predicate IsResultText(parse: JsonParser, lines: seq<string>, text: string) {
    && (forall k :: 0 <= k < |lines| && IsLastResult(parse, lines, k) ==>
          text == if parse(lines[k]).value.envelope.result != "" then parse(lines[k]).value.envelope.result else AllPrinted(parse, lines))
    && (!HasResult(parse, lines) ==> text == AllPrinted(parse, lines))
  }

  /** What was printed, or some other text when nothing was. */
  predicate IsPrintedText(parse: JsonParser, lines: seq<string>, text: string) {
    AllPrinted(parse, lines) != "" ==> text == AllPrinted(parse, lines)
  }

  /** The limit is that of the last rejected events that carry a type, and a reset time. */
  predicate IsLastLimit(parse: JsonParser, lines: seq<string>, limitType: Option<string>, resetsAt: Option<real>) {
    && (forall k :: 0 <= k < |lines| && IsLastReset(parse, lines, k) ==> resetsAt == parse(lines[k]).value.resetsAt)
    && (forall k :: 0 <= k < |lines| && IsLastType(parse, lines, k) ==> limitType == parse(lines[k]).value.limitType)
    && ((forall k :: 0 <= k < |lines| ==> !ReportsReset(parse, lines[k])) ==> resetsAt == None)
    && ((forall k :: 0 <= k < |lines| ==> !ReportsType(parse, lines[k])) ==> limitType == None)
  }

  predicate IsLastReset(parse: JsonParser, lines: seq<string>, k: nat) {
    k < |lines| && ReportsReset(parse, lines[k]) && forall i :: k < i < |lines| ==> !ReportsReset(parse, lines[i])
  }

  predicate IsLastType(parse: JsonParser, lines: seq<string>, k: nat) {
    k < |lines| && ReportsType(parse, lines[k]) && forall i :: k < i < |lines| ==> !ReportsType(parse, lines[i])
  }

  predicate ReportsType(parse: JsonParser, line: string) {
    match parse(line)
    case Some(RateLimitEvent(rejected, limitType, _)) => rejected && limitType.Some?
    case _ => false
  }

  lemma {:induction false} LastTypeWins(parse: JsonParser, f: Facts, lines: seq<string>, k: nat)
    requires IsLastType(parse, lines, k)
    ensures Fold(parse, f, lines).rateLimitType == parse(lines[k]).value.limitType
    decreases |lines|
  {
    if k > 0 {
      assert forall i :: 0 < i < |lines| ==> lines[i] == lines[1..][i - 1];
      LastTypeWins(parse, LineEffect(parse, f, lines[0]), lines[1..], k - 1);
    } else {
      assert forall i :: 0 <= i < |lines[1..]| ==> lines[1..][i] == lines[i + 1];
      QuietLinesKeepTheType(parse, LineEffect(parse, f, lines[0]), lines[1..]);
    }
  }

  lemma {:induction false} QuietLinesKeepTheType(parse: JsonParser, f: Facts, lines: seq<string>)
    requires forall i :: 0 <= i < |lines| ==> !ReportsType(parse, lines[i])
    ensures Fold(parse, f, lines).rateLimitType == f.rateLimitType
    decreases |lines|
  {
    if lines != [] {
      assert !ReportsType(parse, lines[0]);
      QuietLinesKeepTheType(parse, LineEffect(parse, f, lines[0]), lines[1..]);
    }
  }

  lemma LastLimitWins(parse: JsonParser, lines: seq<string>)
    ensures var facts := Fold(parse, NO_FACTS, lines); IsLastLimit(parse, lines, facts.rateLimitType, facts.resetsAt)
  {
    hide Fold;
    forall k | 0 <= k < |lines| && IsLastReset(parse, lines, k)
      ensures Fold(parse, NO_FACTS, lines).resetsAt == parse(lines[k]).value.resetsAt
    {
      LastRejectedEventWins(parse, NO_FACTS, lines, k);
    }
    forall k | 0 <= k < |lines| && IsLastType(parse, lines, k)
      ensures Fold(parse, NO_FACTS, lines).rateLimitType == parse(lines[k]).value.limitType
    {
      LastTypeWins(parse, NO_FACTS, lines, k);
    }
    if forall k :: 0 <= k < |lines| ==> !ReportsReset(parse, lines[k]) { QuietLinesKeepTheReset(parse, NO_FACTS, lines); }
    if forall k :: 0 <= k < |lines| ==> !ReportsType(parse, lines[k]) { QuietLinesKeepTheType(parse, NO_FACTS, lines); }
  }

  /**
   * Which result these lines, this exit code and a token limit have to give, field by field. The cases exclude each other,
   * and one of them applies.
   */
  predicate Reports(
      parse: JsonParser, lines: seq<string>, killOnCompaction: bool, tokenLimitReached: bool, code: Option<int>, outcome: Outcome)
  {
    var limited := IsLimited(parse, lines);
    var compacted := killOnCompaction && SomeLineRaises(parse, lines, CompactionFlag);
    var ended := !limited && !tokenLimitReached && !compacted;
    match outcome
    case Paused(output, limitType, resetsAt) =>
      limited && IsPrintedText(parse, lines, output) && IsLastLimit(parse, lines, limitType, resetsAt)
    case OutOfTokens(output, partialOutput) =>
      !limited && tokenLimitReached && IsResultText(parse, lines, output) && partialOutput == AllPrinted(parse, lines)
    case Compacted(output, partialOutput) =>
      !limited && !tokenLimitReached && compacted && IsResultText(parse, lines, output) && partialOutput == AllPrinted(parse, lines)
    case Reported(success, output, sessionId) =>
      && ended && code == Some(0) && HasResult(parse, lines) && IsResultText(parse, lines, output)
      && forall k :: 0 <= k < |lines| && IsLastResult(parse, lines, k) ==>
           (success <==> !parse(lines[k]).value.envelope.isError) && sessionId == parse(lines[k]).value.envelope.sessionId
    case Silent(output) => ended && code == Some(0) && !HasResult(parse, lines) && output == AllPrinted(parse, lines)
    case Failed(output, authExpired) =>
      && ended && code != Some(0) && IsPrintedText(parse, lines, output)
      && (authExpired <==> SomeLineRaises(parse, lines, AuthFlag))
  }

  /** However the text of a run arrives, its result, its count of denied calls and its callbacks are those of its complete lines. */
  lemma ResultIsWhatTheLinesSay(
      parse: JsonParser, killOnCompaction: bool, chunks: seq<string>, tokenLimitReached: bool, code: Option<int>)
    ensures Reports(parse, LinesOf(chunks), killOnCompaction, tokenLimitReached, code,
                    Close(DataEvents(parse, STARTED, killOnCompaction, chunks), tokenLimitReached, code))
    ensures
      var facts := DataEvents(parse, STARTED, killOnCompaction, chunks).stream.facts;
      facts.denied == AllDenied(parse, LinesOf(chunks)) && facts.progress == AllCallbacks(parse, LinesOf(chunks), 0, 0)
  {
    var lines, run := LinesOf(chunks), DataEvents(parse, STARTED, killOnCompaction, chunks);
    LatchesMirrorTheParser(parse, STARTED, killOnCompaction, chunks);
    ChunkIndependence(parse, NO_FACTS, chunks);
    assert run.stream.facts == Fold(parse, NO_FACTS, lines);
    FlagsOfLines(parse, lines);
    OutputIsWhatTheLinesPrint(parse, NO_FACTS, lines);
    assert "" + AllPrinted(parse, lines) == AllPrinted(parse, lines);
    CallbacksAreTheAssistants(parse, NO_FACTS, lines);
    assert [] + AllCallbacks(parse, lines, 0, 0) == AllCallbacks(parse, lines, 0, 0);
    LastLimitWins(parse, lines);
    ResultOfLines(parse, lines);
    hide DataEvents, Fold, CompleteLines, FeedChunks, ReadAll, SomeLineRaises, AllPrinted, IsLastLimit, IsLastResult, HasResult;
    ClosingReports(parse, lines, killOnCompaction, run, tokenLimitReached, code);
  }

  lemma FlagsOfLines(parse: JsonParser, lines: seq<string>)
    ensures var flags := Fold(parse, NO_FACTS, lines).flags;
            forall flag :: IsRaised(flags, flag) <==> SomeLineRaises(parse, lines, flag)
  {
    forall flag ensures IsRaised(Fold(parse, NO_FACTS, lines).flags, flag) <==> SomeLineRaises(parse, lines, flag) {
      FlagsMeanSignals(parse, NO_FACTS, lines, flag);
    }
  }

  /** The facts hold the envelope of the last result line, or none. */
  predicate HoldsLastResult(parse: JsonParser, lines: seq<string>, lastResult: Option<Envelope>) {
    && (lastResult.Some? <==> HasResult(parse, lines))
    && forall k :: 0 <= k < |lines| && IsLastResult(parse, lines, k) ==> lastResult == Some(parse(lines[k]).value.envelope)
  }

  lemma ResultOfLines(parse: JsonParser, lines: seq<string>)
    ensures HoldsLastResult(parse, lines, Fold(parse, NO_FACTS, lines).lastResult)
  {
    hide Fold;
    forall k | 0 <= k < |lines| && IsLastResult(parse, lines, k)
      ensures Fold(parse, NO_FACTS, lines).lastResult == Some(parse(lines[k]).value.envelope)
    {
      LastResultWins(parse, NO_FACTS, lines, k);
    }
    if HasResult(parse, lines) {
      var k := ThereIsALastResult(parse, lines);
    } else {
      NoResultKeepsIt(parse, NO_FACTS, lines);
    }
  }

  lemma ClosingReports(
      parse: JsonParser, lines: seq<string>, killOnCompaction: bool, run: Run, tokenLimitReached: bool, code: Option<int>)
    requires Mirrors(run, killOnCompaction)
    requires forall flag :: IsRaised(run.stream.facts.flags, flag) <==> SomeLineRaises(parse, lines, flag)
    requires run.stream.facts.fullOutput == AllPrinted(parse, lines)
    requires IsLastLimit(parse, lines, run.stream.facts.rateLimitType, run.stream.facts.resetsAt)
    requires HoldsLastResult(parse, lines, run.stream.facts.lastResult)
    ensures Reports(parse, lines, killOnCompaction, tokenLimitReached, code, Close(run, tokenLimitReached, code))
  {
    var flags := run.stream.facts.flags;
    hide SomeLineRaises, AllPrinted, IsLastLimit, IsLastResult, HasResult, IsResultText;
    assert IsRaised(flags, RateLimitFlag) == flags.rateLimit && IsRaised(flags, ServerFlag) == flags.server;
    assert IsRaised(flags, OverloadedFlag) == flags.overloaded && IsRaised(flags, CompactionFlag) == flags.compaction;
    assert IsRaised(flags, AuthFlag) == flags.auth;
    ResultOrIsResultText(parse, lines, run.stream.facts);
    hide IsRaised, ResultOr;
  }

  lemma ResultOrIsResultText(parse: JsonParser, lines: seq<string>, facts: Facts)
    requires HoldsLastResult(parse, lines, facts.lastResult) && facts.fullOutput == AllPrinted(parse, lines)
    ensures IsResultText(parse, lines, ResultOr(facts))
    ensures facts.lastResult.Some? ==> ResultOr(facts) == OrElse(facts.lastResult.value.result, facts.fullOutput)
  {
    hide IsLastResult, HasResult, AllPrinted;
  }
}
