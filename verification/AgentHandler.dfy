/**
 * The handler of a running agent: each `data` event feeds the parser and latches what it detected, each latch ends the
 * process once, and `close` turns the latches, the exit code and the parsed facts into one result.
 */
module AgentHandler {
  import opened JsStrings
  import opened StreamParser

  /** `kills` counts the signals sent to the process. */
  datatype Latches = Latches(auth: bool, rateLimit: bool, compaction: bool, kills: nat)

  datatype Run = Run(stream: Stream, latches: Latches)

  const STARTED := Run(Stream(NO_FACTS, ""), Latches(false, false, false, 0))

  predicate PausingFlag(flags: Flags) {
    flags.rateLimit || flags.server || flags.overloaded
  }

  function Latch(l: Latches, flags: Flags, killOnCompaction: bool): Latches {
    var auth := !l.auth && flags.auth;
    var limited := !l.rateLimit && PausingFlag(flags);
    var compacted := killOnCompaction && !l.compaction && flags.compaction;
    Latches(l.auth || auth, l.rateLimit || limited, l.compaction || compacted,
            l.kills + (if auth then 1 else 0) + (if limited then 1 else 0) + (if compacted then 1 else 0))
  }

  function Data(parse: JsonParser, run: Run, killOnCompaction: bool, text: string): Run {
    var stream := Feed(parse, run.stream, text);
    Run(stream, Latch(run.latches, stream.facts.flags, killOnCompaction))
  }

  function DataEvents(parse: JsonParser, run: Run, killOnCompaction: bool, chunks: seq<string>): Run
    decreases |chunks|
  {
    if chunks == [] then run
    else DataEvents(parse, Data(parse, run, killOnCompaction, chunks[0]), killOnCompaction, chunks[1..])
  }

  datatype Outcome =
    | Paused(output: string, rateLimitType: Option<string>, resetsAt: Option<real>)
    | OutOfTokens(output: string, partialOutput: string)
    | Compacted(output: string, partialOutput: string)
    | Reported(success: bool, output: string, sessionId: string)
    | Silent(output: string)
    | Failed(output: string, authExpired: bool)

  function OrElse(s: string, fallback: string): string {
    if s != "" then s else fallback
  }

  function ResultOr(facts: Facts): string {
    if facts.lastResult.Some? then OrElse(facts.lastResult.value.result, facts.fullOutput) else facts.fullOutput
  }

  /** The result a `close` resolves with; `code` is `None` for a process ended by a signal. */
  function Close(run: Run, tokenLimitReached: bool, code: Option<int>): Outcome {
    var facts := run.stream.facts;
    if run.latches.rateLimit then
      Paused(OrElse(facts.fullOutput, "Rate limit or API outage detected"), facts.rateLimitType, facts.resetsAt)
    else if tokenLimitReached then OutOfTokens(ResultOr(facts), facts.fullOutput)
    else if run.latches.compaction then Compacted(ResultOr(facts), facts.fullOutput)
    else if code == Some(0) then
      match facts.lastResult {
        case Some(r) => Reported(!r.isError, OrElse(r.result, facts.fullOutput), r.sessionId)
        case None => Silent(facts.fullOutput)
      }
    else Failed(OrElse(facts.fullOutput, "Agent failed without output"), run.latches.auth)
  }

  /** The latches are the parser's flags, and the process has been signalled once for each latch that is set. */
  predicate Mirrors(run: Run, killOnCompaction: bool) {
    var flags, l := run.stream.facts.flags, run.latches;
    && '\n' !in run.stream.lineBuffer
    && l.auth == flags.auth
    && l.rateLimit == PausingFlag(flags)
    && l.compaction == (killOnCompaction && flags.compaction)
    && l.kills == (if l.auth then 1 else 0) + (if l.rateLimit then 1 else 0) + (if l.compaction then 1 else 0)
  }

  lemma FlagsNeverFall(parse: JsonParser, s: Stream, text: string, flag: Flag)
    requires IsRaised(s.facts.flags, flag)
    ensures IsRaised(Feed(parse, s, text).facts.flags, flag)
  {
    FlagsMeanSignals(parse, s.facts, CompleteLines(s.lineBuffer + text), flag);
  }

  lemma DataKeepsTheMirror(parse: JsonParser, run: Run, killOnCompaction: bool, text: string)
    requires Mirrors(run, killOnCompaction)
    ensures Mirrors(Data(parse, run, killOnCompaction, text), killOnCompaction)
  {
    var flags := run.stream.facts.flags;
    if flags.auth { FlagsNeverFall(parse, run.stream, text, AuthFlag); }
    if flags.rateLimit { FlagsNeverFall(parse, run.stream, text, RateLimitFlag); }
    if flags.server { FlagsNeverFall(parse, run.stream, text, ServerFlag); }
    if flags.overloaded { FlagsNeverFall(parse, run.stream, text, OverloadedFlag); }
    if flags.compaction { FlagsNeverFall(parse, run.stream, text, CompactionFlag); }
  }

  /** After every `data` event of every run the latches equal the parser's flags, so no more than three signals are sent. */
  lemma {:induction false} LatchesMirrorTheParser(parse: JsonParser, run: Run, killOnCompaction: bool, chunks: seq<string>)
    requires Mirrors(run, killOnCompaction)
    ensures Mirrors(DataEvents(parse, run, killOnCompaction, chunks), killOnCompaction)
    ensures DataEvents(parse, run, killOnCompaction, chunks).stream == FeedChunks(parse, run.stream, chunks)
    decreases |chunks|
  {
    if chunks != [] {
      DataKeepsTheMirror(parse, run, killOnCompaction, chunks[0]);
      LatchesMirrorTheParser(parse, Data(parse, run, killOnCompaction, chunks[0]), killOnCompaction, chunks[1..]);
    }
  }

  /** Two runs over the same text, however it arrived, end in the same state and resolve to the same result. */
  lemma OutcomeIsChunkIndependent(
      parse: JsonParser, killOnCompaction: bool, a: seq<string>, b: seq<string>, tokenLimitReached: bool, code: Option<int>)
    requires Concat(a) == Concat(b)
    ensures DataEvents(parse, STARTED, killOnCompaction, a) == DataEvents(parse, STARTED, killOnCompaction, b)
    ensures Close(DataEvents(parse, STARTED, killOnCompaction, a), tokenLimitReached, code) ==
            Close(DataEvents(parse, STARTED, killOnCompaction, b), tokenLimitReached, code)
  {
    LatchesMirrorTheParser(parse, STARTED, killOnCompaction, a);
    LatchesMirrorTheParser(parse, STARTED, killOnCompaction, b);
    ChunkIndependence(parse, NO_FACTS, a);
    ChunkIndependence(parse, NO_FACTS, b);
  }

  predicate TextRaises(parse: JsonParser, text: string, flag: Flag) {
    exists i :: 0 <= i < |CompleteLines(text)| && LineRaises(parse, CompleteLines(text)[i], flag)
  }

  /**
   * What a result says about the text the agent printed: a pause means that some line signalled a limit or an outage, and
   * an expired login is reported exactly when some line said so and nothing that ranks above a failed exit applies. An
   * agent that exits with code 0 is never reported as logged out, whatever its lines said.
   */
  lemma OutcomeTellsWhatTheTextSaid(
      parse: JsonParser, killOnCompaction: bool, chunks: seq<string>, tokenLimitReached: bool, code: Option<int>)
    ensures
      var text := Concat(chunks);
      var outcome := Close(DataEvents(parse, STARTED, killOnCompaction, chunks), tokenLimitReached, code);
      var limited := exists flag :: flag in {RateLimitFlag, ServerFlag, OverloadedFlag} && TextRaises(parse, text, flag);
      var compacted := killOnCompaction && TextRaises(parse, text, CompactionFlag);
      && (outcome.Paused? <==> limited)
      && (outcome.OutOfTokens? <==> !limited && tokenLimitReached)
      && (outcome.Compacted? <==> !limited && !tokenLimitReached && compacted)
      && (outcome.Failed? <==> !limited && !tokenLimitReached && !compacted && code != Some(0))
      && (outcome.Failed? ==> (outcome.authExpired <==> TextRaises(parse, text, AuthFlag)))
  {
    LatchesMirrorTheParser(parse, STARTED, killOnCompaction, chunks);
    ChunkIndependence(parse, NO_FACTS, chunks);
    FlagsOfText(parse, Concat(chunks));
    hide DataEvents, FeedChunks, ReadAll, TextRaises, Concat, ResultOr, OrElse;
  }

  lemma FlagsOfText(parse: JsonParser, text: string)
    ensures
      var flags := ReadAll(parse, NO_FACTS, text).facts.flags;
      && (flags.rateLimit <==> TextRaises(parse, text, RateLimitFlag))
      && (flags.auth <==> TextRaises(parse, text, AuthFlag))
      && (flags.server <==> TextRaises(parse, text, ServerFlag))
      && (flags.overloaded <==> TextRaises(parse, text, OverloadedFlag))
      && (flags.compaction <==> TextRaises(parse, text, CompactionFlag))
  {
    FlagOfText(parse, text, RateLimitFlag);
    FlagOfText(parse, text, AuthFlag);
    FlagOfText(parse, text, ServerFlag);
    FlagOfText(parse, text, OverloadedFlag);
    FlagOfText(parse, text, CompactionFlag);
    hide ReadAll, TextRaises;
  }

  lemma FlagOfText(parse: JsonParser, text: string, flag: Flag)
    ensures IsRaised(ReadAll(parse, NO_FACTS, text).facts.flags, flag) <==> TextRaises(parse, text, flag)
  {
    FlagsMeanSignals(parse, NO_FACTS, CompleteLines(text), flag);
  }

  lemma NoLineInTheTail(text: string, tail: string)
    requires '\n' !in tail
    ensures CompleteLines(text + tail) == CompleteLines(text)
  {
    LinesOfConcat(text, tail);
    assert '\n' !in Tail(text) by { assert Parts(text)[|Parts(text)| - 1] == Tail(text); }
    SplitWithout(Tail(text) + tail, '\n');
    assert CompleteLines(text) + [] == CompleteLines(text);
  }

  /**
   * Only lines that a newline has ended are read, at `close` as before: texts with the same complete lines give the same
   * result, so what is printed behind the last newline, the final result included, changes nothing.
   */
  lemma {:induction false} OnlyCompleteLinesCount(
      parse: JsonParser, killOnCompaction: bool, a: seq<string>, b: seq<string>, tokenLimitReached: bool, code: Option<int>)
    requires CompleteLines(Concat(a)) == CompleteLines(Concat(b))
    ensures Close(DataEvents(parse, STARTED, killOnCompaction, a), tokenLimitReached, code) ==
            Close(DataEvents(parse, STARTED, killOnCompaction, b), tokenLimitReached, code)
  {
    LatchesMirrorTheParser(parse, STARTED, killOnCompaction, a);
    LatchesMirrorTheParser(parse, STARTED, killOnCompaction, b);
    ChunkIndependence(parse, NO_FACTS, a);
    ChunkIndependence(parse, NO_FACTS, b);
    hide CompleteLines;
  }

  lemma {:induction false} ConcatOfMore(chunks: seq<string>, tail: string)
    ensures Concat(chunks + [tail]) == Concat(chunks) + tail
  {
    if chunks == [] {
      assert chunks + [tail] == [tail] && [tail][1..] == [];
    } else {
      assert (chunks + [tail])[1..] == chunks[1..] + [tail];
      ConcatOfMore(chunks[1..], tail);
    }
  }

  lemma UnendedTailIsIgnored(
      parse: JsonParser, killOnCompaction: bool, chunks: seq<string>, tail: string, tokenLimitReached: bool, code: Option<int>)
    requires '\n' !in tail
    ensures Close(DataEvents(parse, STARTED, killOnCompaction, chunks + [tail]), tokenLimitReached, code) ==
            Close(DataEvents(parse, STARTED, killOnCompaction, chunks), tokenLimitReached, code)
  {
    ConcatOfMore(chunks, tail);
    NoLineInTheTail(Concat(chunks), tail);
    OnlyCompleteLinesCount(parse, killOnCompaction, chunks + [tail], chunks, tokenLimitReached, code);
  }

  class Handler {
    const state: ParserState
    const killOnCompaction: bool
    var authErrorDetected: bool
    var compactionDetected: bool
    var rateLimitDetected: bool
    var kills: nat

    function CurrentLatches(): Latches
      reads this
    {
      Latches(authErrorDetected, rateLimitDetected, compactionDetected, kills)
    }

    function CurrentRun(): Run
      reads this, state
    {
      Run(state.CurrentStream(), CurrentLatches())
    }

    constructor (killOnCompaction: bool)
      ensures CurrentRun() == STARTED && fresh(state)
      ensures this.killOnCompaction == killOnCompaction
    {
      this.killOnCompaction := killOnCompaction;
      state := new ParserState();
      authErrorDetected, compactionDetected, rateLimitDetected, kills := false, false, false, 0;
    }

    method OnData(parse: JsonParser, text: string)
      modifies this, state
      ensures CurrentRun() == Data(parse, old(CurrentRun()), killOnCompaction, text)
    {
      state.ParseJsonlOutput(parse, text);
      LatchDetections();
    }

    method LatchDetections()
      modifies this
      ensures CurrentLatches() == Latch(old(CurrentLatches()), state.CurrentStream().facts.flags, killOnCompaction)
    {
      if !authErrorDetected && state.authErrorDetected {
        authErrorDetected := true;
        kills := kills + 1;
      }
      if !rateLimitDetected && (state.rateLimitDetected || state.serverErrorDetected || state.overloadedErrorDetected) {
        rateLimitDetected := true;
        kills := kills + 1;
      }
      if killOnCompaction && !compactionDetected && state.compactionDetected {
        compactionDetected := true;
        kills := kills + 1;
      }
    }

    /** Every result carries the count of denied tool calls. */
    method OnClose(tokenLimitReached: bool, code: Option<int>) returns (outcome: Outcome, denied: nat)
      ensures outcome == Close(CurrentRun(), tokenLimitReached, code)
      ensures denied == CurrentRun().stream.facts.denied
    {
      denied := state.deniedToolCallCount;
      if rateLimitDetected {
        return Paused(OrElse(state.fullOutput, "Rate limit or API outage detected"), state.rateLimitType, state.resetsAt), denied;
      }
      if tokenLimitReached {
        return OutOfTokens(ResultOr(state.CurrentFacts()), state.fullOutput), denied;
      }
      if compactionDetected {
        return Compacted(ResultOr(state.CurrentFacts()), state.fullOutput), denied;
      }
      if code == Some(0) {
        match state.lastResult
        case Some(r) => return Reported(!r.isError, OrElse(r.result, state.fullOutput), r.sessionId), denied;
        case None => return Silent(state.fullOutput), denied;
      }
      outcome := Failed(OrElse(state.fullOutput, "Agent failed without output"), authErrorDetected);
    }
  }
}
