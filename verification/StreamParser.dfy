/**
 * The incremental parser of the agent's JSONL output. `JSON.parse` is a parameter: it maps a line to the message it
 * holds, or to `None` where the original throws before it has read anything (malformed JSON, and the literal `null`).
 */
module StreamParser {
  import opened JsStrings

  datatype Block =
    | TextBlock(text: string)
    | ToolUse(name: string, input: string)
    | ToolResult(isError: bool)
    | OtherBlock

  /** `Unreadable` is a content the extractors throw on: something truthy that is no list, or a list with a null in it. */
  datatype Content = Absent | Unreadable | Blocks(blocks: seq<Block>)

  /** The documented retry errors; any other one, or none, is `OtherError`. */
  datatype RetryError = AuthenticationFailed | RateLimited | Overloaded | ServerError | OtherError

  datatype Envelope = Envelope(isError: bool, result: string, sessionId: string)

  /** A status that is no number is `None`, and so is an attempt that compares with none; one written as text counts as its number. */
  datatype Message =
    | ToolResultLine(isError: bool)
    | RateLimitEvent(rejected: bool, limitType: Option<string>, resetsAt: Option<real>)
    | ApiRetry(error: RetryError, status: Option<real>, attempt: Option<real>)
    | CompactBoundary
    | Result(envelope: Envelope, apiErrorStatus: Option<real>)
    | Assistant(content: Content)
    | OtherMessage

  type JsonParser = string -> Option<Message>

  datatype Progress =
    | ToolProgress(name: string, input: string, turn: nat, tool: nat)
    | TextProgress(text: string, turn: nat)

  const HTTP_UNAUTHORIZED := 401.0
  const HTTP_TOO_MANY_REQUESTS := 429.0
  const HTTP_OVERLOADED := 529.0
  const PAUSE_ON_RETRY_ATTEMPT := 2

  /** What a run's stream has shown so far, with the progress callbacks made for it, in order. */
  datatype Facts = Facts(
    lastResult: Option<Envelope>, fullOutput: string, turnCount: nat, toolCount: nat, denied: nat,
    rateLimitType: Option<string>, resetsAt: Option<real>,
    flags: Flags, progress: seq<Progress>)

  datatype Flags = Flags(rateLimit: bool, auth: bool, server: bool, overloaded: bool, compaction: bool)

  const NO_FLAGS := Flags(false, false, false, false, false)
  const NO_FACTS := Facts(None, "", 0, 0, 0, None, None, NO_FLAGS, [])

  // ---------------------------------------------------------------- one message

  datatype Signal = AuthSignal | RateLimitSignal | OverloadedSignal | ServerSignal | Unclassified

  predicate IsServerErrorStatus(status: Option<real>) {
    status.Some? && 500.0 <= status.value < 600.0 && status.value != HTTP_OVERLOADED
  }

  function ClassifyApiSignal(error: RetryError, status: Option<real>): Signal {
    if error == AuthenticationFailed || status == Some(HTTP_UNAUTHORIZED) then AuthSignal
    else if error == RateLimited || status == Some(HTTP_TOO_MANY_REQUESTS) then RateLimitSignal
    else if error == Overloaded || status == Some(HTTP_OVERLOADED) then OverloadedSignal
    else if error == ServerError || IsServerErrorStatus(status) then ServerSignal
    else Unclassified
  }

  function TextOf(blocks: seq<Block>): string {
    if blocks == [] then ""
    else (if blocks[0].TextBlock? then blocks[0].text + "\n" else "") + TextOf(blocks[1..])
  }

  function ErroredResults(blocks: seq<Block>): nat {
    if blocks == [] then 0
    else (if blocks[0].ToolResult? && blocks[0].isError then 1 else 0) + ErroredResults(blocks[1..])
  }

  function ToolUses(blocks: seq<Block>): seq<Block> {
    if blocks == [] then [] else (if blocks[0].ToolUse? then [blocks[0]] else []) + ToolUses(blocks[1..])
  }

  function ToolProgresses(tools: seq<Block>, turn: nat, before: nat): seq<Progress>
    requires forall i :: 0 <= i < |tools| ==> tools[i].ToolUse?
  {
    if tools == [] then []
    else [ToolProgress(tools[0].name, Prefix(tools[0].input, 200), turn, before + 1)]
         + ToolProgresses(tools[1..], turn, before + 1)
  }

  lemma NextToolProgress(tools: seq<Block>, i: nat, turn: nat, before: nat)
    requires i < |tools| && forall i :: 0 <= i < |tools| ==> tools[i].ToolUse?
    ensures ToolProgresses(tools[i..], turn, before) ==
            [ToolProgress(tools[i].name, Prefix(tools[i].input, 200), turn, before + 1)] + ToolProgresses(tools[i + 1..], turn, before + 1)
  {
    assert tools[i..][1..] == tools[i + 1..];
  }

  lemma NoToolProgress(turn: nat, before: nat)
    ensures ToolProgresses([], turn, before) == []
  {}

  lemma {:induction false} ToolUsesAreToolUses(blocks: seq<Block>)
    ensures forall i :: 0 <= i < |ToolUses(blocks)| ==> ToolUses(blocks)[i].ToolUse?
  {
    if blocks != [] { ToolUsesAreToolUses(blocks[1..]); }
  }

  function AssistantEffect(f: Facts, blocks: seq<Block>): Facts {
    var tools := ToolUses(blocks);
    var text := Trim(TextOf(blocks));
    ToolUsesAreToolUses(blocks);
    f.(turnCount := f.turnCount + 1,
       fullOutput := f.fullOutput + TextOf(blocks),
       denied := f.denied + ErroredResults(blocks),
       toolCount := f.toolCount + |tools|,
       progress := f.progress + ToolProgresses(tools, f.turnCount + 1, f.toolCount)
                   + (if text != "" then [TextProgress(Prefix(text, 500), f.turnCount + 1)] else []))
  }

  /** The catch clause keeps the line as plain output, on top of whatever had been done before the throw. */
  function CaughtEffect(f: Facts, line: string): Facts {
    f.(fullOutput := f.fullOutput + line + "\n")
  }

  function SignalEffect(flags: Flags, signal: Signal, serverCounts: bool): Flags {
    match signal
    case AuthSignal => flags.(auth := true)
    case RateLimitSignal => flags.(rateLimit := true)
    case OverloadedSignal => flags.(overloaded := true)
    case _ => flags.(server := flags.server || serverCounts)
  }

  function MessageEffect(f: Facts, m: Message, line: string): Facts {
    match m
    case ToolResultLine(isError) => f.(denied := f.denied + if isError then 1 else 0)
    case RateLimitEvent(rejected, limitType, resetsAt) =>
      if !rejected then f
      else f.(flags := f.flags.(rateLimit := true),
              rateLimitType := if limitType.Some? then limitType else f.rateLimitType,
              resetsAt := if resetsAt.Some? then resetsAt else f.resetsAt)
    case ApiRetry(error, status, attempt) =>
      f.(flags := SignalEffect(f.flags, ClassifyApiSignal(error, status), attempt.Some? && attempt.value >= PAUSE_ON_RETRY_ATTEMPT as real))
    case CompactBoundary => f.(flags := f.flags.(compaction := true))
    case Result(envelope, status) =>
      var signal := ClassifyApiSignal(OtherError, status);
      f.(lastResult := Some(envelope), flags := SignalEffect(f.flags, signal, signal == ServerSignal))
    case Assistant(Absent) => AssistantEffect(f, [])
    case Assistant(Unreadable) => CaughtEffect(f.(turnCount := f.turnCount + 1), line)
    case Assistant(Blocks(blocks)) => AssistantEffect(f, blocks)
    case OtherMessage => f
  }

  function LineEffect(parse: JsonParser, f: Facts, line: string): Facts {
    match parse(line)
    case None => CaughtEffect(f, line)
    case Some(m) => MessageEffect(f, m, line)
  }

  function Fold(parse: JsonParser, f: Facts, lines: seq<string>): Facts
    decreases |lines|
  {
    if lines == [] then f else Fold(parse, LineEffect(parse, f, lines[0]), lines[1..])
  }

  lemma NextFold(parse: JsonParser, f: Facts, lines: seq<string>, i: nat)
    requires i < |lines|
    ensures Fold(parse, f, lines[i..]) == Fold(parse, LineEffect(parse, f, lines[i]), lines[i + 1..])
  {
    hide LineEffect;
    assert lines[i..][1..] == lines[i + 1..];
  }

  lemma NoFold(parse: JsonParser, f: Facts)
    ensures Fold(parse, f, []) == f
  {}

  function NonBlank(lines: seq<string>): seq<string> {
    if lines == [] then []
    else (if IsBlank(lines[0]) then [] else [lines[0]]) + NonBlank(lines[1..])
  }

  // ---------------------------------------------------------------- chunks

  datatype Stream = Stream(facts: Facts, lineBuffer: string)

  function Parts(text: string): (parts: seq<string>)
    ensures |parts| > 0
  {
    Split(text, '\n')
  }

  /** The lines of a text that are ended by a newline, blank ones dropped. */
  function CompleteLines(text: string): seq<string> {
    NonBlank(Parts(text)[..|Parts(text)| - 1])
  }

  function Tail(text: string): string {
    Last(Parts(text))
  }

  /** The reference: read a whole text at once, from its first character. */
  function ReadAll(parse: JsonParser, f: Facts, text: string): Stream {
    Stream(Fold(parse, f, CompleteLines(text)), Tail(text))
  }

  /** What one call on a chunk does to the state. */
  function Feed(parse: JsonParser, s: Stream, chunk: string): Stream {
    ReadAll(parse, s.facts, s.lineBuffer + chunk)
  }

  function FeedChunks(parse: JsonParser, s: Stream, chunks: seq<string>): Stream
    decreases |chunks|
  {
    if chunks == [] then s else FeedChunks(parse, Feed(parse, s, chunks[0]), chunks[1..])
  }

  function Concat(chunks: seq<string>): string {
    if chunks == [] then "" else chunks[0] + Concat(chunks[1..])
  }

  lemma {:induction false} NonBlankOfConcat(a: seq<string>, b: seq<string>)
    ensures NonBlank(a + b) == NonBlank(a) + NonBlank(b)
  {
    hide IsBlank;
    if a == [] {
      assert a + b == b;
    } else {
      assert (a + b)[1..] == a[1..] + b;
      NonBlankOfConcat(a[1..], b);
    }
  }

  lemma {:induction false} FoldOfConcat(parse: JsonParser, f: Facts, a: seq<string>, b: seq<string>)
    ensures Fold(parse, f, a + b) == Fold(parse, Fold(parse, f, a), b)
    decreases |a|
  {
    if a == [] {
      assert a + b == b;
    } else {
      assert (a + b)[1..] == a[1..] + b;
      FoldOfConcat(parse, LineEffect(parse, f, a[0]), a[1..], b);
    }
  }

  lemma SplitFromTheTail(a: string, b: string)
    ensures Parts(a + b) == Parts(a)[..|Parts(a)| - 1] + Parts(Tail(a) + b)
  {
    SplitOfConcat(a, b, '\n');
    GlueShape(Parts(a), Parts(b));
    SplitOfConcat(Tail(a), b, '\n');
    SplitWithout(Tail(a), '\n');
  }

  /** The complete lines of a longer text are those of its front, then those of what the front left open. */
  lemma LinesOfConcat(a: string, b: string)
    ensures CompleteLines(a + b) == CompleteLines(a) + CompleteLines(Tail(a) + b)
    ensures Tail(a + b) == Tail(Tail(a) + b)
  {
    SplitFromTheTail(a, b);
    var front, whole, rest := Parts(a)[..|Parts(a)| - 1], Parts(a + b), Parts(Tail(a) + b);
    assert whole[..|whole| - 1] == front + rest[..|rest| - 1];
    NonBlankOfConcat(front, rest[..|rest| - 1]);
  }

  lemma FeedTwice(parse: JsonParser, s: Stream, a: string, b: string)
    ensures Feed(parse, Feed(parse, s, a), b) == Feed(parse, s, a + b)
  {
    var text := s.lineBuffer + a;
    LinesOfConcat(text, b);
    FoldOfConcat(parse, s.facts, CompleteLines(text), CompleteLines(Tail(text) + b));
    assert s.lineBuffer + (a + b) == text + b;
  }

  /** A chunk that carries nothing changes nothing, since the buffer never holds a newline. */
  lemma FeedNothing(parse: JsonParser, s: Stream)
    requires '\n' !in s.lineBuffer
    ensures Feed(parse, s, "") == s
  {
    assert s.lineBuffer + "" == s.lineBuffer;
    SplitWithout(s.lineBuffer, '\n');
  }

  lemma {:induction false} FeedChunksIsOneFeed(parse: JsonParser, s: Stream, chunks: seq<string>)
    requires '\n' !in s.lineBuffer
    ensures FeedChunks(parse, s, chunks) == Feed(parse, s, Concat(chunks))
    ensures '\n' !in FeedChunks(parse, s, chunks).lineBuffer
    decreases |chunks|
  {
    if chunks == [] {
      FeedNothing(parse, s);
    } else {
      FeedChunksIsOneFeed(parse, Feed(parse, s, chunks[0]), chunks[1..]);
      FeedTwice(parse, s, chunks[0], Concat(chunks[1..]));
    }
  }

  /** However a text is cut, facts, callbacks and buffer are those of reading it in one go. */
  lemma ChunkIndependence(parse: JsonParser, f: Facts, chunks: seq<string>)
    ensures FeedChunks(parse, Stream(f, ""), chunks) == ReadAll(parse, f, Concat(chunks))
  {
    FeedChunksIsOneFeed(parse, Stream(f, ""), chunks);
    assert "" + Concat(chunks) == Concat(chunks);
  }

  // ---------------------------------------------------------------- what the detections mean

  datatype Flag = AuthFlag | RateLimitFlag | ServerFlag | OverloadedFlag | CompactionFlag

  predicate IsRaised(flags: Flags, flag: Flag) {
    match flag
    case AuthFlag => flags.auth
    case RateLimitFlag => flags.rateLimit
    case ServerFlag => flags.server
    case OverloadedFlag => flags.overloaded
    case CompactionFlag => flags.compaction
  }

  predicate HasStatus(m: Message, code: real) {
    (m.ApiRetry? && m.status == Some(code)) || (m.Result? && m.apiErrorStatus == Some(code))
  }

  predicate HasError(m: Message, kind: RetryError) {
    m.ApiRetry? && m.error == kind
  }

  /** Which message raises which flag, said apart from the order in which the code tests them. */
  predicate Raises(m: Message, flag: Flag) {
    var auth := HasError(m, AuthenticationFailed) || HasStatus(m, 401.0);
    var limited := !auth && (HasError(m, RateLimited) || HasStatus(m, 429.0));
    var overloaded := !auth && !limited && (HasError(m, Overloaded) || HasStatus(m, 529.0));
    match flag
    case AuthFlag => auth
    case RateLimitFlag => limited || (m.RateLimitEvent? && m.rejected)
    case OverloadedFlag => overloaded
    case ServerFlag =>
      || (m.ApiRetry? && !auth && !limited && !overloaded && m.attempt.Some? && m.attempt.value >= 2.0)
      || (m.Result? && m.apiErrorStatus.Some? && 500.0 <= m.apiErrorStatus.value < 600.0 && m.apiErrorStatus.value != 529.0)
    case CompactionFlag => m.CompactBoundary?
  }

  predicate LineRaises(parse: JsonParser, line: string, flag: Flag) {
    parse(line).Some? && Raises(parse(line).value, flag)
  }

  lemma LineRaisesExactly(parse: JsonParser, f: Facts, line: string, flag: Flag)
    ensures IsRaised(LineEffect(parse, f, line).flags, flag) <==> IsRaised(f.flags, flag) || LineRaises(parse, line, flag)
  {
    match parse(line)
    case None =>
    case Some(Assistant(content)) =>
    case Some(ApiRetry(error, status, attempt)) =>
    case Some(Result(envelope, status)) =>
    case Some(m) =>
  }

  /** A flag is up exactly when it was up before or some line raised it: none is ever lowered. */
  lemma {:induction false} FlagsMeanSignals(parse: JsonParser, f: Facts, lines: seq<string>, flag: Flag)
    ensures IsRaised(Fold(parse, f, lines).flags, flag) <==>
            IsRaised(f.flags, flag) || exists i :: 0 <= i < |lines| && LineRaises(parse, lines[i], flag)
    decreases |lines|
  {
    if lines != [] {
      LineRaisesExactly(parse, f, lines[0], flag);
      FlagsMeanSignals(parse, LineEffect(parse, f, lines[0]), lines[1..], flag);
      assert forall i :: 0 < i < |lines| ==> lines[i] == lines[1..][i - 1];
      assert LineRaises(parse, lines[0], flag) ==> exists i :: 0 <= i < |lines| && LineRaises(parse, lines[i], flag);
    }
  }

  predicate ReportsReset(parse: JsonParser, line: string) {
    match parse(line)
    case Some(RateLimitEvent(rejected, _, resetsAt)) => rejected && resetsAt.Some?
    case _ => false
  }

  /** The reset time is that of the last rejected event that carries one. */
  lemma {:induction false} LastRejectedEventWins(parse: JsonParser, f: Facts, lines: seq<string>, k: nat)
    requires k < |lines| && ReportsReset(parse, lines[k])
    requires forall i :: k < i < |lines| ==> !ReportsReset(parse, lines[i])
    ensures Fold(parse, f, lines).resetsAt == parse(lines[k]).value.resetsAt
    decreases |lines|
  {
    if k > 0 {
      LastRejectedEventWins(parse, LineEffect(parse, f, lines[0]), lines[1..], k - 1);
    } else {
      QuietLinesKeepTheReset(parse, LineEffect(parse, f, lines[0]), lines[1..]);
    }
  }

  lemma {:induction false} QuietLinesKeepTheReset(parse: JsonParser, f: Facts, lines: seq<string>)
    requires forall i :: 0 <= i < |lines| ==> !ReportsReset(parse, lines[i])
    ensures Fold(parse, f, lines).resetsAt == f.resetsAt
    decreases |lines|
  {
    if lines != [] {
      QuietLinesKeepTheReset(parse, LineEffect(parse, f, lines[0]), lines[1..]);
    }
  }

  predicate IsAssistant(parse: JsonParser, line: string) {
    parse(line).Some? && parse(line).value.Assistant?
  }

  function AssistantLines(parse: JsonParser, lines: seq<string>): nat {
    if lines == [] then 0
    else (if IsAssistant(parse, lines[0]) then 1 else 0) + AssistantLines(parse, lines[1..])
  }

  /** Turns are counted once for each assistant line, readable or not, and every tool counted was reported. */
  lemma {:induction false} TurnsAndToolsAreCounted(parse: JsonParser, f: Facts, lines: seq<string>)
    requires |Tools(f.progress)| == f.toolCount
    ensures Fold(parse, f, lines).turnCount == f.turnCount + AssistantLines(parse, lines)
    ensures |Tools(Fold(parse, f, lines).progress)| == Fold(parse, f, lines).toolCount
    decreases |lines|
  {
    if lines != [] {
      LineReportsItsTools(parse, f, lines[0]);
      TurnsAndToolsAreCounted(parse, LineEffect(parse, f, lines[0]), lines[1..]);
    }
  }

  function Tools(progress: seq<Progress>): seq<Progress> {
    if progress == [] then []
    else (if progress[0].ToolProgress? then [progress[0]] else []) + Tools(progress[1..])
  }

  lemma ToolsOfCons(first: Progress, rest: seq<Progress>)
    ensures Tools([first] + rest) == (if first.ToolProgress? then [first] else []) + Tools(rest)
  {
    assert ([first] + rest)[1..] == rest;
  }

  lemma {:induction false} ToolsOfConcat(a: seq<Progress>, b: seq<Progress>)
    ensures Tools(a + b) == Tools(a) + Tools(b)
    decreases |a|
  {
    if a == [] {
      assert a + b == b;
    } else {
      ToolsOfCons(a[0], a[1..]);
      ToolsOfCons(a[0], a[1..] + b);
      hide Tools;
      assert a == [a[0]] + a[1..] && a + b == [a[0]] + (a[1..] + b);
      ToolsOfConcat(a[1..], b);
    }
  }

  lemma {:induction false} EveryToolIsReported(tools: seq<Block>, turn: nat, before: nat)
    requires forall i :: 0 <= i < |tools| ==> tools[i].ToolUse?
    ensures |Tools(ToolProgresses(tools, turn, before))| == |tools|
  {
    if tools != [] {
      EveryToolIsReported(tools[1..], turn, before + 1);
      ToolsOfConcat([ToolProgress(tools[0].name, Prefix(tools[0].input, 200), turn, before + 1)],
                    ToolProgresses(tools[1..], turn, before + 1));
    }
  }

  lemma AssistantReportsItsTools(f: Facts, blocks: seq<Block>)
    requires |Tools(f.progress)| == f.toolCount
    ensures |Tools(AssistantEffect(f, blocks).progress)| == AssistantEffect(f, blocks).toolCount
  {
    var tools, text := ToolUses(blocks), Trim(TextOf(blocks));
    ToolUsesAreToolUses(blocks);
    var toolEvents := ToolProgresses(tools, f.turnCount + 1, f.toolCount);
    var textEvents := if text != "" then [TextProgress(Prefix(text, 500), f.turnCount + 1)] else [];
    EveryToolIsReported(tools, f.turnCount + 1, f.toolCount);
    ToolsOfConcat(f.progress, toolEvents);
    ToolsOfConcat(f.progress + toolEvents, textEvents);
    assert Tools(textEvents) == [];
  }

  lemma LineReportsItsTools(parse: JsonParser, f: Facts, line: string)
    requires |Tools(f.progress)| == f.toolCount
    ensures |Tools(LineEffect(parse, f, line).progress)| == LineEffect(parse, f, line).toolCount
    ensures LineEffect(parse, f, line).turnCount == f.turnCount + if IsAssistant(parse, line) then 1 else 0
  {
    match parse(line)
    case Some(Assistant(Absent)) => AssistantReportsItsTools(f, []);
    case Some(Assistant(Blocks(blocks))) => AssistantReportsItsTools(f, blocks);
    case _ =>
  }

  // ---------------------------------------------------------------- the parser's state

  /** The mutable state, field by field. `progress` is what the progress callback has been called with. */
  class ParserState {
    var lastResult: Option<Envelope>
    var fullOutput: string
    var turnCount: nat
    var toolCount: nat
    var lineBuffer: string
    var rateLimitType: Option<string>
    var resetsAt: Option<real>
    var rateLimitDetected: bool
    var authErrorDetected: bool
    var serverErrorDetected: bool
    var overloadedErrorDetected: bool
    var compactionDetected: bool
    var deniedToolCallCount: nat
    var progress: seq<Progress>

    function CurrentFacts(): Facts
      reads this
    {
      Facts(lastResult, fullOutput, turnCount, toolCount, deniedToolCallCount, rateLimitType, resetsAt,
            Flags(rateLimitDetected, authErrorDetected, serverErrorDetected, overloadedErrorDetected, compactionDetected), progress)
    }

    function CurrentStream(): Stream
      reads this
    {
      Stream(CurrentFacts(), lineBuffer)
    }

    constructor ()
      ensures CurrentStream() == Stream(NO_FACTS, "")
    {
      lastResult, fullOutput, turnCount, toolCount, lineBuffer := None, "", 0, 0, "";
      rateLimitType, resetsAt, deniedToolCallCount, progress := None, None, 0, [];
      rateLimitDetected, authErrorDetected, serverErrorDetected := false, false, false;
      overloadedErrorDetected, compactionDetected := false, false;
    }

    method ApplyRateLimitEvent(rejected: bool, limitType: Option<string>, resets: Option<real>)
      modifies this
      ensures CurrentFacts() == MessageEffect(old(CurrentFacts()), RateLimitEvent(rejected, limitType, resets), "")
      ensures lineBuffer == old(lineBuffer)
    {
      if !rejected { return; }
      rateLimitDetected := true;
      if limitType.Some? { rateLimitType := limitType; }
      if resets.Some? { resetsAt := resets; }
    }

    method ApplyApiRetrySignal(error: RetryError, status: Option<real>, attempt: Option<real>)
      modifies this
      ensures CurrentFacts() == MessageEffect(old(CurrentFacts()), ApiRetry(error, status, attempt), "")
      ensures lineBuffer == old(lineBuffer)
    {
      var kind := ClassifyApiSignal(error, status);
      if kind == AuthSignal {
        authErrorDetected := true;
        return;
      }
      if kind == RateLimitSignal {
        rateLimitDetected := true;
        return;
      }
      if kind == OverloadedSignal {
        overloadedErrorDetected := true;
        return;
      }
      if attempt.Some? && attempt.value >= PAUSE_ON_RETRY_ATTEMPT as real {
        serverErrorDetected := true;
      }
    }

    method ApplyResultSignal(status: Option<real>)
      modifies this
      ensures CurrentFacts() ==
              var signal, before := ClassifyApiSignal(OtherError, status), old(CurrentFacts());
              before.(flags := SignalEffect(before.flags, signal, signal == ServerSignal))
      ensures lineBuffer == old(lineBuffer)
    {
      match ClassifyApiSignal(OtherError, status)
      case AuthSignal => authErrorDetected := true;
      case RateLimitSignal => rateLimitDetected := true;
      case OverloadedSignal => overloadedErrorDetected := true;
      case ServerSignal => serverErrorDetected := true;
      case Unclassified =>
    }

    method ReportTools(tools: seq<Block>)
      requires forall i :: 0 <= i < |tools| ==> tools[i].ToolUse?
      modifies this`toolCount, this`progress
      ensures toolCount == old(toolCount) + |tools|
      ensures progress == old(progress) + ToolProgresses(tools, turnCount, old(toolCount))
    {
      hide ToolProgresses;
      ghost var seen: seq<Progress> := [];
      assert tools[0..] == tools;
      for i := 0 to |tools|
        invariant toolCount == old(toolCount) + i
        invariant progress == old(progress) + seen
        invariant seen + ToolProgresses(tools[i..], turnCount, toolCount) == ToolProgresses(tools, turnCount, old(toolCount))
      {
        toolCount := toolCount + 1;
        var info := ToolProgress(tools[i].name, Prefix(tools[i].input, 200), turnCount, toolCount);
        progress := progress + [info];
        NextToolProgress(tools, i, turnCount, old(toolCount) + i);
        seen := seen + [info];
      }
      assert tools[|tools|..] == [];
      NoToolProgress(turnCount, toolCount);
    }

    method ReadAssistant(blocks: seq<Block>)
      modifies this
      ensures CurrentFacts() == AssistantEffect(old(CurrentFacts()), blocks)
      ensures lineBuffer == old(lineBuffer)
    {
      hide TextOf, ErroredResults, ToolUses, ToolProgresses, Trim, Prefix;
      turnCount := turnCount + 1;
      fullOutput := fullOutput + TextOf(blocks);
      deniedToolCallCount := deniedToolCallCount + ErroredResults(blocks);
      ToolUsesAreToolUses(blocks);
      ReportTools(ToolUses(blocks));
      var textContent := Trim(TextOf(blocks));
      if textContent != "" {
        progress := progress + [TextProgress(Prefix(textContent, 500), turnCount)];
      }
    }

    method ReadLine(parse: JsonParser, line: string)
      modifies this
      ensures CurrentFacts() == LineEffect(parse, old(CurrentFacts()), line)
      ensures lineBuffer == old(lineBuffer)
    {
      hide AssistantEffect, SignalEffect, ClassifyApiSignal;
      match parse(line)
      case None =>
        fullOutput := fullOutput + line + "\n";
      case Some(ToolResultLine(isError)) =>
        if isError { deniedToolCallCount := deniedToolCallCount + 1; }
      case Some(RateLimitEvent(rejected, limitType, resets)) =>
        ApplyRateLimitEvent(rejected, limitType, resets);
      case Some(ApiRetry(error, status, attempt)) =>
        ApplyApiRetrySignal(error, status, attempt);
      case Some(CompactBoundary) =>
        compactionDetected := true;
      case Some(Result(envelope, status)) =>
        lastResult := Some(envelope);
        ApplyResultSignal(status);
      case Some(Assistant(Absent)) =>
        ReadAssistant([]);
      case Some(Assistant(Unreadable)) =>
        turnCount := turnCount + 1;
        fullOutput := fullOutput + line + "\n";
      case Some(Assistant(Blocks(blocks))) =>
        ReadAssistant(blocks);
      case Some(OtherMessage) =>
    }

    method ParseJsonlOutput(parse: JsonParser, text: string)
      modifies this
      ensures CurrentStream() == Feed(parse, old(CurrentStream()), text)
    {
      hide Fold, LineEffect, NonBlank, IsBlank;
      var segments := Split(lineBuffer + text, '\n');
      ghost var parts := segments;
      var lines;
      if !EndsWith(text, "\n") {
        lineBuffer := Last(segments);
        segments := segments[..|segments| - 1];
        lines := NonBlank(segments);
      } else {
        EndedTextHasEmptyTail(lineBuffer, text);
        lineBuffer := "";
        lines := NonBlank(segments);
      }
      assert lines[0..] == lines;
      for i := 0 to |lines|
        invariant Fold(parse, CurrentFacts(), lines[i..]) == Fold(parse, old(CurrentFacts()), lines)
        invariant lineBuffer == Last(parts)
      {
        NextFold(parse, CurrentFacts(), lines, i);
        ReadLine(parse, lines[i]);
      }
      assert lines[|lines|..] == [];
      NoFold(parse, CurrentFacts());
    }
  }

  /** The last part of a text that ends in a newline is empty, and blank lines are dropped, so keeping it is harmless. */
  lemma EndedTextHasEmptyTail(buffer: string, text: string)
    requires EndsWith(text, "\n")
    ensures Tail(buffer + text) == ""
    ensures NonBlank(Parts(buffer + text)) == CompleteLines(buffer + text)
  {
    var front := buffer + text[..|text| - 1];
    assert buffer + text == front + ['\n'] + "";
    SplitAround(front, "", '\n');
    var parts := Parts(buffer + text);
    assert parts == parts[..|parts| - 1] + [""];
    NonBlankOfConcat(parts[..|parts| - 1], [""]);
  }
}
