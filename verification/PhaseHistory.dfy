/** What the phase runner keeps across calls, failures, crashes and restarts of one workflow. */
module PhaseHistory {
  import opened JsStrings
  import opened RateLimitWait
  import opened PhaseRunner

  /** A phase's function was called; a top-level state was persisted. */
  datatype Event = Called(name: string) | Wrote(state: TopState)

  function Calls(name: string, n: nat): seq<Event> {
    seq(n, _ => Called(name))
  }

  function Writes(states: seq<TopState>): seq<Event> {
    if states == [] then [] else [Wrote(states[0])] + Writes(states[1..])
  }

  function CallTrace(state: Option<TopState>, legacy: set<string>, call: Call): seq<Event> {
    var states := StatesOf(state, CallEffect(state, legacy, call).writes);
    if states == [] then [] else [Wrote(states[0])] + Calls(call.name, CallEffect(state, legacy, call).calls) + Writes(states[1..])
  }

  /** `total` is what the running process' tracker holds. */
  datatype World = World(state: Option<TopState>, legacy: set<string>, trace: seq<Event>, total: real)

  /** A process starts, with the list an old run may have left; or the running process calls `runPhase`. */
  datatype Happening = NewProcess(legacy: set<string>) | Runs(call: Call)

  function Step(w: World, h: Happening): World {
    match h
    case NewProcess(legacy) => w.(legacy := legacy, total := 0.0)
    case Runs(call) =>
      var e := CallEffect(w.state, w.legacy, call);
      World(WriteAll(w.state, e.writes), w.legacy, w.trace + CallTrace(w.state, w.legacy, call), w.total + Sum(e.costs))
  }

  function Run(w: World, happenings: seq<Happening>): World
    decreases |happenings|
  {
    if happenings == [] then w else Run(Step(w, happenings[0]), happenings[1..])
  }

  const FRESH := World(None, {}, [], 0.0)

  // ---------------------------------------------------------------- the rule

  /** The specification of one phase: once a completed entry is persisted it never changes, and the function is not called again. */
  datatype Ledger = Broken | Open | Closed(entry: Entry)

  function Enter(ledger: Ledger, name: string, e: Event): Ledger {
    match (ledger, e)
    case (Open, Wrote(s)) => if name in s.phases && s.phases[name].status == Completed then Closed(s.phases[name]) else Open
    case (Closed(entry), Wrote(s)) => if EntryOf(s.phases, name) == Some(entry) then ledger else Broken
    case (Closed(_), Called(n)) => if n == name then Broken else ledger
    case _ => ledger
  }

  function EnterAll(ledger: Ledger, name: string, events: seq<Event>): Ledger
    decreases |events|
  {
    if events == [] then ledger else EnterAll(Enter(ledger, name, events[0]), name, events[1..])
  }

  lemma {:induction false} EnterAllOfConcat(ledger: Ledger, name: string, a: seq<Event>, b: seq<Event>)
    ensures EnterAll(ledger, name, a + b) == EnterAll(EnterAll(ledger, name, a), name, b)
    decreases |a|
  {
    if a == [] {
      assert a + b == b;
    } else {
      assert (a + b)[1..] == a[1..] + b;
      EnterAllOfConcat(Enter(ledger, name, a[0]), name, a[1..], b);
    }
  }

  lemma {:induction false} BrokenStaysBroken(name: string, events: seq<Event>)
    ensures EnterAll(Broken, name, events) == Broken
  {
    if events != [] { BrokenStaysBroken(name, events[1..]); }
  }

  // ---------------------------------------------------------------- one call

  /** The last step of the call throws: the entry is completed, recording it fails, and the failure is marked over it. */
  predicate Reopens(attempt: Attempt) {
    && attempt.Resolves? && attempt.trouble.StepThrows? && attempt.trouble.spot.AtRecord?
    && !attempt.trouble.failing.mark.Refused?
  }

  predicate RecordThrows(attempts: seq<Attempt>) {
    attempts != [] && if WaitsInProcess(attempts[0]) then RecordThrows(attempts[1..]) else Reopens(attempts[0])
  }

  function LedgerOf(state: Option<TopState>, name: string): Ledger {
    if state.Some? && name in state.value.phases && state.value.phases[name].status == Completed
    then Closed(state.value.phases[name]) else Open
  }

  /**
   * A call of the phase itself breaks the rule when it is not skipped and marks the phase as running, and either the phase
   * was completed, which the test did not see, or it is completed now and reopened.
   */
  predicate OwnCallBreaks(state: Option<TopState>, legacy: set<string>, call: Call) {
    && !IsSkipped(state, legacy, call) && !call.runningMark.Refused?
    && (LedgerOf(state, call.name).Closed? || RecordThrows(call.attempts))
  }

  predicate HasBlind(writes: seq<Write>) {
    writes != [] && (writes[0].blind || HasBlind(writes[1..]))
  }

  /** A call of another phase breaks it when the phase was completed and one of the call's writes could not read the state. */
  predicate SiblingBreaks(state: Option<TopState>, legacy: set<string>, call: Call, name: string) {
    LedgerOf(state, name).Closed? && HasBlind(CallEffect(state, legacy, call).writes)
  }

  predicate OnlyAbout(writes: seq<Write>, name: string) {
    forall i :: 0 <= i < |writes| ==> writes[i].patch.phases.Keys <= {name}
  }

  lemma {:induction false} EffectIsAboutTheCall(state: Option<TopState>, legacy: set<string>, call: Call)
    ensures OnlyAbout(CallEffect(state, legacy, call).writes, call.name)
  {
    hide IsSkipped;
    AttemptsAreAboutTheCall(call, call.attempts);
  }

  lemma {:induction false} AttemptsAreAboutTheCall(call: Call, attempts: seq<Attempt>)
    ensures OnlyAbout(Attempts(call, attempts).writes, call.name)
  {
    if attempts != [] && WaitsInProcess(attempts[0]) { AttemptsAreAboutTheCall(call, attempts[1..]); }
  }

  lemma {:induction false} OtherCalls(ledger: Ledger, name: string, other: string, n: nat)
    requires !ledger.Closed? || other != name
    ensures EnterAll(ledger, name, Calls(other, n)) == ledger
  {
    if n > 0 {
      assert Calls(other, n)[1..] == Calls(other, n - 1);
      OtherCalls(ledger, name, other, n - 1);
    }
  }

  lemma SiblingWrite(state: Option<TopState>, w: Write, name: string)
    requires name !in w.patch.phases
    ensures var ledger := LedgerOf(state, name);
            if ledger.Closed? && w.blind then Enter(ledger, name, Wrote(After(state, w))) == Broken
            else LedgerOf(Some(After(state, w)), name) == ledger && Enter(ledger, name, Wrote(After(state, w))) == ledger
  {
    assert EntryOf(After(state, w).phases, name) == if w.blind then None else EntryOf(Persisted(state).phases, name);
  }

  lemma WritesUnfold(state: Option<TopState>, writes: seq<Write>)
    requires writes != []
    ensures var next := After(state, writes[0]);
            && Writes(StatesOf(state, writes)) == [Wrote(next)] + Writes(StatesOf(Some(next), writes[1..]))
            && WriteAll(state, writes) == WriteAll(Some(next), writes[1..])
  {
    hide After;
    var next := After(state, writes[0]);
    assert StatesOf(state, writes)[1..] == StatesOf(Some(next), writes[1..]);
  }

  lemma EnterOneMore(ledger: Ledger, name: string, e: Event, events: seq<Event>)
    ensures EnterAll(ledger, name, [e] + events) == EnterAll(Enter(ledger, name, e), name, events)
  {
    assert ([e] + events)[1..] == events;
  }

  lemma {:induction false} SiblingWrites(state: Option<TopState>, writes: seq<Write>, about: string, name: string)
    requires OnlyAbout(writes, about) && about != name
    ensures var ledger, after := LedgerOf(state, name), EnterAll(LedgerOf(state, name), name, Writes(StatesOf(state, writes)));
            if ledger.Closed? && HasBlind(writes) then after == Broken
            else after == ledger == LedgerOf(WriteAll(state, writes), name)
    decreases |writes|
  {
    var ledger := LedgerOf(state, name);
    if writes == [] {
      NothingEntered(ledger, state, name);
    } else {
      var next, rest := After(state, writes[0]), writes[1..];
      assert writes[0].patch.phases.Keys <= {about};
      SiblingWrite(state, writes[0], name);
      WritesUnfold(state, writes);
      EnterOneMore(ledger, name, Wrote(next), Writes(StatesOf(Some(next), rest)));
      BrokenStaysBroken(name, Writes(StatesOf(Some(next), rest)));
      hide LedgerOf, After, Enter;
      SiblingWrites(Some(next), rest, about, name);
    }
  }

  /**
   * A call for another phase leaves this phase's entry as it is in every state it persists and does not call its function, if
   * and only if the phase was not completed or every one of the call's writes could read the state.
   */
  lemma SiblingOnTheLedger(state: Option<TopState>, legacy: set<string>, call: Call, name: string)
    requires call.name != name
    ensures
      var ledger, after := LedgerOf(state, name), EnterAll(LedgerOf(state, name), name, CallTrace(state, legacy, call));
      if SiblingBreaks(state, legacy, call, name) then after == Broken
      else after == ledger == LedgerOf(WriteAll(state, CallEffect(state, legacy, call).writes), name)
  {
    var ledger, e := LedgerOf(state, name), CallEffect(state, legacy, call);
    EffectIsAboutTheCall(state, legacy, call);
    hide CallEffect, LedgerOf, After, Enter;
    SiblingWrites(state, e.writes, call.name, name);
    if e.writes != [] {
      var first, rest := Wrote(After(state, e.writes[0])), Writes(StatesOf(Some(After(state, e.writes[0])), e.writes[1..]));
      WritesUnfold(state, e.writes);
      TraceUnfolds(state, legacy, call);
      ThreeParts(ledger, name, [first], Calls(call.name, e.calls), rest);
      OtherCalls(EnterAll(ledger, name, [first]), name, call.name, e.calls);
      EnterAllOfConcat(ledger, name, [first], rest);
    }
  }

  lemma TraceUnfolds(state: Option<TopState>, legacy: set<string>, call: Call)
    ensures var e := CallEffect(state, legacy, call);
            if e.writes == [] then CallTrace(state, legacy, call) == []
            else
              var first := After(state, e.writes[0]);
              CallTrace(state, legacy, call) ==
                [Wrote(first)] + Calls(call.name, e.calls) + Writes(StatesOf(Some(first), e.writes[1..]))
  {
    hide CallEffect, After, Calls;
    var e := CallEffect(state, legacy, call);
    if e.writes != [] {
      var states := StatesOf(state, e.writes);
      assert states[1..] == StatesOf(Some(After(state, e.writes[0])), e.writes[1..]);
    }
  }

  lemma ThreeParts(ledger: Ledger, name: string, a: seq<Event>, b: seq<Event>, c: seq<Event>)
    ensures EnterAll(ledger, name, a + b + c) == EnterAll(EnterAll(EnterAll(ledger, name, a), name, b), name, c)
  {
    EnterAllOfConcat(ledger, name, a, b);
    EnterAllOfConcat(ledger, name, a + b, c);
  }

  lemma AttemptsUnfold(call: Call, attempts: seq<Attempt>)
    requires attempts != []
    ensures
      var first, rest := attempts[0], attempts[1..];
      if WaitsInProcess(first) then
        && Attempts(call, attempts).writes == Attempts(call, rest).writes
        && Attempts(call, attempts).outcome == Attempts(call, rest).outcome
        && RecordThrows(attempts) == RecordThrows(rest) && Reached(attempts) == [first] + Reached(rest)
      else
        && Attempts(call, attempts) == OneAttempt(call, first)
        && RecordThrows(attempts) == Reopens(first) && Reached(attempts) == [first]
  {
    hide OneAttempt, Reopens, WaitsInProcess;
  }

  lemma NoAttempts(call: Call)
    ensures Attempts(call, []) == Effect([], [], 0, Died) && !RecordThrows([]) && Reached([]) == []
  {}

  /** The attempt that ends a call, if the process lives to see one. */
  lemma {:induction false} LastAttempt(call: Call, attempts: seq<Attempt>) returns (k: nat)
    ensures k <= |attempts|
    ensures k == |attempts| ==>
              && Attempts(call, attempts).writes == [] && Attempts(call, attempts).outcome == Died && !RecordThrows(attempts)
    ensures k < |attempts| ==>
              && !WaitsInProcess(attempts[k])
              && Attempts(call, attempts).writes == OneAttempt(call, attempts[k]).writes
              && Attempts(call, attempts).outcome == OneAttempt(call, attempts[k]).outcome
              && (RecordThrows(attempts) <==> Reopens(attempts[k]))
              && Reached(attempts) != [] && Last(Reached(attempts)) == attempts[k]
    decreases |attempts|
  {
    hide Attempts, OneAttempt, Reopens, RecordThrows, Reached, WaitsInProcess;
    k := 0;
    if attempts == [] {
      NoAttempts(call);
    } else {
      AttemptsUnfold(call, attempts);
      if WaitsInProcess(attempts[0]) {
        var rest := LastAttempt(call, attempts[1..]);
        k := rest + 1;
        if k < |attempts| {
          assert attempts[1..][rest] == attempts[k];
          LastBehind(attempts[0], Reached(attempts[1..]));
        }
      }
    }
  }

  lemma LastBehind<T>(first: T, rest: seq<T>)
    requires rest != []
    ensures Last([first] + rest) == Last(rest)
  {}

  /** The attempts that take place: those that are waited out, and the one that is not. */
  function Reached(attempts: seq<Attempt>): seq<Attempt> {
    if attempts == [] then []
    else [attempts[0]] + if WaitsInProcess(attempts[0]) then Reached(attempts[1..]) else []
  }

  lemma NothingEntered(ledger: Ledger, state: Option<TopState>, name: string)
    ensures StatesOf(state, []) == [] && WriteAll(state, []) == state && Writes([]) == []
    ensures EnterAll(ledger, name, []) == ledger
  {}

  predicate IsOpenWrite(w: Write, name: string) {
    w.patch.phases.Keys <= {name} && (name in w.patch.phases ==> w.patch.phases[name].status != Completed)
  }

  lemma {:induction false} FailuresAreOpen(state: Option<TopState>, name: string, writes: seq<Write>)
    requires LedgerOf(state, name) == Open
    requires forall i :: 0 <= i < |writes| ==> IsOpenWrite(writes[i], name)
    ensures EnterAll(Open, name, Writes(StatesOf(state, writes))) == Open
    ensures LedgerOf(WriteAll(state, writes), name) == Open
    decreases |writes|
  {
    if writes == [] {
      NothingEntered(Open, state, name);
    } else {
      var next, rest := After(state, writes[0]), writes[1..];
      assert IsOpenWrite(writes[0], name);
      OpenWriteStaysOpen(state, writes[0], name);
      WritesUnfold(state, writes);
      EnterOneMore(Open, name, Wrote(next), Writes(StatesOf(Some(next), rest)));
      hide LedgerOf, After, Enter, IsOpenWrite;
      FailuresAreOpen(Some(next), name, rest);
    }
  }

  lemma OpenWriteStaysOpen(state: Option<TopState>, w: Write, name: string)
    requires LedgerOf(state, name) == Open && IsOpenWrite(w, name)
    ensures LedgerOf(Some(After(state, w)), name) == Open == Enter(Open, name, Wrote(After(state, w)))
  {}

  lemma FailureOnTheLedger(state: Option<TopState>, call: Call, error: Error, at: int, f: Failing)
    requires LedgerOf(state, call.name) == Open
    ensures
      var writes := FailureWrites(call, error, at, f);
      && EnterAll(Open, call.name, Writes(StatesOf(state, writes))) == Open
      && LedgerOf(WriteAll(state, writes), call.name) == Open
  {
    FailuresAreOpen(state, call.name, FailureWrites(call, error, at, f));
  }

  /** The completed entry closes the ledger, and a failure marked behind it breaks it. */
  lemma CompletedOnTheLedger(state: Option<TopState>, call: Call, at: int, blind: bool, failure: seq<Write>)
    requires LedgerOf(state, call.name) == Open
    requires failure == [] || (|failure| == 1 && failure[0].patch == FailedPatch(call, at, None))
    ensures
      var writes := [CompletedWrite(call, at, blind)] + failure;
      var ledger := EnterAll(Open, call.name, Writes(StatesOf(state, writes)));
      if failure == [] then ledger == LedgerOf(WriteAll(state, writes), call.name) else ledger == Broken
  {
    var name, writes := call.name, [CompletedWrite(call, at, blind)] + failure;
    var completed := After(state, writes[0]);
    assert completed.phases[name].status == Completed;
    assert writes[1..] == failure;
    WritesUnfold(state, writes);
    EnterOneMore(Open, name, Wrote(completed), Writes(StatesOf(Some(completed), failure)));
    var closed := Closed(completed.phases[name]);
    assert Enter(Open, name, Wrote(completed)) == closed;
    if failure == [] {
      NothingEntered(closed, Some(completed), name);
    } else {
      var failed := After(Some(completed), failure[0]);
      assert failed.phases[name].status == Failed;
      WritesUnfold(Some(completed), failure);
      EnterOneMore(closed, name, Wrote(failed), Writes(StatesOf(Some(failed), failure[1..])));
      BrokenStaysBroken(name, Writes(StatesOf(Some(failed), failure[1..])));
    }
  }

  /** The ledger of the phase after what its last attempt persisted. */
  lemma LastAttemptOnTheLedger(state: Option<TopState>, call: Call, attempt: Attempt)
    requires LedgerOf(state, call.name) == Open
    ensures
      var writes := OneAttempt(call, attempt).writes;
      var ledger := EnterAll(Open, call.name, Writes(StatesOf(state, writes)));
      if Reopens(attempt) then ledger == Broken else ledger == LedgerOf(WriteAll(state, writes), call.name)
  {
    match attempt
    case Dies => NothingEntered(Open, state, call.name);
    case Rejects(error, at, f) => FailureOnTheLedger(state, call, error, at, f);
    case Resolves(cost, at, blind, trouble) => ResolvedOnTheLedger(state, call, attempt);
  }

  lemma ResolvedOnTheLedger(state: Option<TopState>, call: Call, attempt: Attempt)
    requires LedgerOf(state, call.name) == Open && attempt.Resolves?
    ensures
      var writes := OneAttempt(call, attempt).writes;
      var ledger := EnterAll(Open, call.name, Writes(StatesOf(state, writes)));
      if Reopens(attempt) then ledger == Broken else ledger == LedgerOf(WriteAll(state, writes), call.name)
  {
    var at, trouble := attempt.at, attempt.trouble;
    var failure := if trouble.StepThrows? then FailureWrites(call, OtherError, at, trouble.failing) else [];
    hide LedgerOf, CompletedPatch, FailedPatch;
    assert failure == [] || (|failure| == 1 && failure[0].patch == FailedPatch(call, at, None));
    if trouble.NoTrouble? || trouble.spot == AtRecord {
      assert OneAttempt(call, attempt).writes == [CompletedWrite(call, at, attempt.blind)] + failure;
      CompletedOnTheLedger(state, call, at, attempt.blind, failure);
    } else if trouble.StepThrows? {
      FailureOnTheLedger(state, call, OtherError, at, trouble.failing);
    } else {
      NothingEntered(Open, state, call.name);
    }
  }

  /** A call for the phase itself breaks the rule exactly as said, and otherwise leaves the ledger true to the state. */
  lemma OwnCallOnTheLedger(state: Option<TopState>, legacy: set<string>, call: Call)
    ensures
      var name := call.name;
      var ledger := EnterAll(LedgerOf(state, name), name, CallTrace(state, legacy, call));
      if OwnCallBreaks(state, legacy, call) then ledger == Broken
      else ledger == LedgerOf(WriteAll(state, CallEffect(state, legacy, call).writes), name)
  {
    TraceUnfolds(state, legacy, call);
    if IsSkipped(state, legacy, call) || call.runningMark.Refused? {
      hide LedgerOf, EnterAll, WriteAll, CallTrace, IsSkipped;
      NothingEntered(LedgerOf(state, call.name), state, call.name);
    } else {
      hide LedgerOf, EnterAll, WriteAll, CallTrace, IsSkipped, CallEffect, Attempts, RecordThrows;
      RunningFirst(state, legacy, call);
      MarkedOnTheLedger(state, call);
    }
  }

  /** What a call that marks the phase as running enters into the ledger. */
  lemma MarkedOnTheLedger(state: Option<TopState>, call: Call)
    ensures
      var name, ledger, e := call.name, LedgerOf(state, call.name), Attempts(call, call.attempts);
      var running := After(state, Write(RunningPatch(call), call.runningMark.Blind?));
      var trace := [Wrote(running)] + Calls(name, e.calls) + Writes(StatesOf(Some(running), e.writes));
      if ledger.Closed? || RecordThrows(call.attempts) then EnterAll(ledger, name, trace) == Broken
      else EnterAll(ledger, name, trace) == LedgerOf(WriteAll(Some(running), e.writes), name)
  {
    var name, ledger, e := call.name, LedgerOf(state, call.name), Attempts(call, call.attempts);
    var mark := Write(RunningPatch(call), call.runningMark.Blind?);
    var running := After(state, mark);
    var rest := Writes(StatesOf(Some(running), e.writes));
    RunningOnTheLedger(state, call, mark);
    hide After, LedgerOf, Enter, EnterAll, OneAttempt, Attempts, Calls, Writes, StatesOf, WriteAll, RecordThrows;
    OneEntered(ledger, name, Wrote(running));
    ThreeParts(ledger, name, [Wrote(running)], Calls(name, e.calls), rest);
    OtherCalls(Enter(ledger, name, Wrote(running)), name, name, e.calls);
    if ledger.Closed? {
      BrokenStaysBroken(name, rest);
    } else {
      AttemptsOnTheLedger(Some(running), call);
    }
  }

  lemma OneEntered(ledger: Ledger, name: string, e: Event)
    ensures EnterAll(ledger, name, [e]) == Enter(ledger, name, e)
  {
    assert [e][1..] == [];
  }

  lemma AttemptsOnTheLedger(state: Option<TopState>, call: Call)
    requires LedgerOf(state, call.name) == Open
    ensures
      var writes := Attempts(call, call.attempts).writes;
      var ledger := EnterAll(Open, call.name, Writes(StatesOf(state, writes)));
      if RecordThrows(call.attempts) then ledger == Broken else ledger == LedgerOf(WriteAll(state, writes), call.name)
  {
    hide LedgerOf, EnterAll, OneAttempt, Attempts, Writes, StatesOf, WriteAll, RecordThrows, Reopens, Reached;
    var k := LastAttempt(call, call.attempts);
    if k < |call.attempts| {
      LastAttemptOnTheLedger(state, call, call.attempts[k]);
    } else {
      NothingEntered(Open, state, call.name);
    }
  }

  lemma RunningOnTheLedger(state: Option<TopState>, call: Call, mark: Write)
    requires mark.patch == RunningPatch(call)
    ensures var running, ledger := After(state, mark), LedgerOf(state, call.name);
            && LedgerOf(Some(running), call.name) == Open
            && Enter(ledger, call.name, Wrote(running)) == if ledger.Closed? then Broken else Open
  {
    assert After(state, mark).phases[call.name].status == Running;
  }

  lemma RunningFirst(state: Option<TopState>, legacy: set<string>, call: Call)
    requires !IsSkipped(state, legacy, call) && !call.runningMark.Refused?
    ensures
      var e, a := CallEffect(state, legacy, call), Attempts(call, call.attempts);
      var mark := Write(RunningPatch(call), call.runningMark.Blind?);
      && e.writes != [] && e.writes[0] == mark && e.writes[1..] == a.writes && e.calls == a.calls
      && WriteAll(state, e.writes) == WriteAll(Some(After(state, mark)), a.writes)
  {
    hide After, RunningPatch, Attempts, IsSkipped;
    assert CallEffect(state, legacy, call).writes[1..] == Attempts(call, call.attempts).writes;
  }

  // ---------------------------------------------------------------- every run

  /** Whether some call of the run breaks the rule for this phase. */
  predicate EverBreaks(w: World, happenings: seq<Happening>, name: string)
    decreases |happenings|
  {
    happenings != [] && (StepBreaks(w, happenings[0], name) || EverBreaks(Step(w, happenings[0]), happenings[1..], name))
  }

  predicate StepBreaks(w: World, h: Happening, name: string) {
    h.Runs? && if h.call.name == name then OwnCallBreaks(w.state, w.legacy, h.call) else SiblingBreaks(w.state, w.legacy, h.call, name)
  }

  lemma StepOnTheLedger(w: World, h: Happening, name: string)
    ensures
      var w' := Step(w, h);
      var ledger := EnterAll(LedgerOf(w.state, name), name, w'.trace[|w.trace|..]);
      && w.trace <= w'.trace
      && if StepBreaks(w, h, name) then ledger == Broken else ledger == LedgerOf(w'.state, name)
  {
    match h
    case NewProcess(_) => assert EnterAll(LedgerOf(w.state, name), name, []) == LedgerOf(w.state, name);
    case Runs(call) =>
      assert (w.trace + CallTrace(w.state, w.legacy, call))[|w.trace|..] == CallTrace(w.state, w.legacy, call);
      if call.name == name { OwnCallOnTheLedger(w.state, w.legacy, call); } else { SiblingOnTheLedger(w.state, w.legacy, call, name); }
  }

  /**
   * Across any calls, failures, crashes and restarts: a persisted completed entry is never changed or removed and its
   * function never called again, if and only if no call for the phase throws while recording what it has completed, and,
   * with the phase completed, no skip test that matters and no write of another phase fails to read the state.
   */
  lemma {:induction false} CompletedIsFinalIff(w: World, happenings: seq<Happening>, name: string)
    requires EnterAll(Open, name, w.trace) == LedgerOf(w.state, name)
    ensures EnterAll(Open, name, Run(w, happenings).trace) == Broken <==> EverBreaks(w, happenings, name)
    decreases |happenings|
  {
    LedgerIsWhole(w.state, name);
    hide Step, LedgerOf, StepBreaks, EnterAll;
    if happenings != [] {
      NextLedger(w, happenings[0], name);
      var w' := Step(w, happenings[0]);
      if StepBreaks(w, happenings[0], name) {
        BrokenForGood(w', happenings[1..], name);
      } else {
        CompletedIsFinalIff(w', happenings[1..], name);
      }
    }
  }

  lemma LedgerIsWhole(state: Option<TopState>, name: string)
    ensures LedgerOf(state, name) != Broken
  {}

  lemma NextLedger(w: World, h: Happening, name: string)
    requires EnterAll(Open, name, w.trace) == LedgerOf(w.state, name)
    ensures EnterAll(Open, name, Step(w, h).trace) == if StepBreaks(w, h, name) then Broken else LedgerOf(Step(w, h).state, name)
  {
    hide Step, LedgerOf, StepBreaks, EnterAll;
    StepOnTheLedger(w, h, name);
    var w' := Step(w, h);
    EnterAllOfConcat(Open, name, w.trace, w'.trace[|w.trace|..]);
    assert w'.trace == w.trace + w'.trace[|w.trace|..];
  }

  lemma BrokenForGood(w: World, happenings: seq<Happening>, name: string)
    requires EnterAll(Open, name, w.trace) == Broken
    ensures EnterAll(Open, name, Run(w, happenings).trace) == Broken
  {
    hide Run, EnterAll;
    TraceOnlyGrows(w, happenings);
    var all := Run(w, happenings).trace;
    assert all == w.trace + all[|w.trace|..];
    EnterAllOfConcat(Open, name, w.trace, all[|w.trace|..]);
    BrokenStaysBroken(name, all[|w.trace|..]);
  }

  lemma {:induction false} TraceOnlyGrows(w: World, happenings: seq<Happening>)
    ensures w.trace <= Run(w, happenings).trace
    decreases |happenings|
  {
    if happenings != [] { TraceOnlyGrows(Step(w, happenings[0]), happenings[1..]); }
  }

  /** From a fresh workflow the rule holds exactly as long as no call breaks it in one of these ways. */
  lemma FreshRunsKeepTheRuleIff(happenings: seq<Happening>, name: string)
    ensures EnterAll(Open, name, Run(FRESH, happenings).trace) != Broken <==> !EverBreaks(FRESH, happenings, name)
  {
    CompletedIsFinalIff(FRESH, happenings, name);
  }

  /** When every step succeeds and every read and write of the state does, nothing breaks the rule. */
  predicate IsSound(call: Call) {
    && !call.skipReadFails && !call.runningMark.Blind?
    && forall i :: 0 <= i < |call.attempts| ==> IsSoundAttempt(call.attempts[i])
  }

  predicate IsSoundAttempt(attempt: Attempt) {
    match attempt
    case Dies => true
    case Rejects(_, _, f) => !f.mark.Blind? && !f.handler.Blind?
    case Resolves(_, _, blind, trouble) =>
      && !blind && !Reopens(attempt)
      && (trouble.StepThrows? ==> !trouble.failing.mark.Blind? && !trouble.failing.handler.Blind?)
  }

  lemma {:induction false} SoundAttemptsKeepTheRule(call: Call, attempts: seq<Attempt>)
    requires forall i :: 0 <= i < |attempts| ==> IsSoundAttempt(attempts[i])
    ensures !RecordThrows(attempts) && !HasBlind(Attempts(call, attempts).writes)
  {
    if attempts != [] {
      assert IsSoundAttempt(attempts[0]);
      if WaitsInProcess(attempts[0]) {
        SoundAttemptsKeepTheRule(call, attempts[1..]);
      } else {
        NoBlindIff(OneAttempt(call, attempts[0]).writes);
      }
    }
  }

  lemma {:induction false} NoBlindIff(writes: seq<Write>)
    ensures !HasBlind(writes) <==> forall i :: 0 <= i < |writes| ==> !writes[i].blind
  {
    if writes != [] {
      NoBlindIff(writes[1..]);
      assert forall i :: 0 < i < |writes| ==> writes[i] == writes[1..][i - 1];
    }
  }

  lemma {:induction false} SoundCallsKeepTheRule(w: World, happenings: seq<Happening>, name: string)
    requires forall i :: 0 <= i < |happenings| ==> happenings[i].Runs? ==> IsSound(happenings[i].call)
    ensures !EverBreaks(w, happenings, name)
    decreases |happenings|
  {
    if happenings != [] {
      if happenings[0].Runs? {
        var call := happenings[0].call;
        SoundAttemptsKeepTheRule(call, call.attempts);
        NoBlindIff(Attempts(call, call.attempts).writes);
        NoBlindIff(CallEffect(w.state, w.legacy, call).writes);
      }
      assert !StepBreaks(w, happenings[0], name);
      hide Step, StepBreaks, IsSound;
      SoundCallsKeepTheRule(Step(w, happenings[0]), happenings[1..], name);
    }
  }

  lemma TwoWrites(state: Option<TopState>, a: Write, b: Write)
    ensures WriteAll(state, [a, b]) == Some(After(Some(After(state, a)), b))
  {
    hide After;
    assert [a, b] == [a] + [b];
    WriteAllOfConcat(state, [a], [b]);
    OneWrite(state, a);
    OneWrite(Some(After(state, a)), b);
  }

  /**
   * The first exception: the phase has resolved and is persisted as completed, then recording it throws; it ends as failed
   * and is run again.
   */
  lemma RecordingErrorReopensThePhase(name: string, cost: real, at: int)
    ensures
      var attempt := Resolves(cost, at, false, StepThrows(AtRecord, Failing(Sees, Sees, false)));
      var call := Call(name, 0, false, Sees, [attempt]);
      var after := Run(FRESH, [Runs(call)]);
      && EverBreaks(FRESH, [Runs(call)], name)
      && EntryOf(Persisted(after.state).phases, name) == Some(Entry(Failed, 0, Some(at), None))
      && CallEffect(after.state, {}, call).calls == 1
  {
    var attempt := Resolves(cost, at, false, StepThrows(AtRecord, Failing(Sees, Sees, false)));
    var call := Call(name, 0, false, Sees, [attempt]);
    assert [Runs(call)][1..] == [];
    assert EverBreaks(FRESH, [Runs(call)], name);
    var running, completed := Write(RunningPatch(call), false), CompletedWrite(call, at, false);
    var failed := Write(FailedPatch(call, at, None), false);
    assert CallEffect(None, {}, call).writes == [running] + [completed, failed];
    WriteAllOfConcat(None, [running], [completed, failed]);
    OneWrite(None, running);
    var s1 := After(None, running);
    TwoWrites(Some(s1), completed, failed);
    var s2 := After(Some(s1), completed);
    var s3 := After(Some(s2), failed);
    assert s1.phases[name] == Entry(Running, 0, None, None);
    assert s2.phases[name] == Entry(Completed, 0, Some(at), None);
    assert s3.phases[name] == Entry(Failed, 0, Some(at), None);
    assert Step(FRESH, Runs(call)).state == Some(s3);
    assert Run(FRESH, [Runs(call)]) == Run(Step(FRESH, Runs(call)), []);
  }

  /** The second: the test cannot read the state, so a completed phase that no list names is marked as running and called again. */
  lemma UnreadTestRunsThePhaseAgain(state: TopState, call: Call)
    requires LedgerOf(Some(state), call.name).Closed? && call.skipReadFails && call.runningMark == Sees
    requires call.attempts != [] && call.attempts[0].Dies?
    ensures var e := CallEffect(Some(state), {}, call);
            var after := EntryOf(Persisted(WriteAll(Some(state), e.writes)).phases, call.name);
            e.calls == 1 && after.Some? && after.value.status == Running
  {
    var e, mark := CallEffect(Some(state), {}, call), Write(RunningPatch(call), false);
    assert e.writes == [mark] + [] == [mark];
    OneWrite(Some(state), mark);
    assert After(Some(state), mark).phases[call.name].status == Running;
  }

  /** The third: a write that cannot read the state drops the entry of every other phase. */
  lemma BlindWriteDropsTheOthers(state: Option<TopState>, patch: Patch, name: string)
    requires name !in patch.phases
    ensures EntryOf(Persisted(WriteAll(state, [Write(patch, true)])).phases, name) == None
  {
    OneWrite(state, Write(patch, true));
    assert name !in After(state, Write(patch, true)).phases;
  }

  // ---------------------------------------------------------------- attempts and costs of one call

  function CostsOf(attempts: seq<Attempt>): seq<real> {
    if attempts == [] then []
    else (if attempts[0].Resolves? then [attempts[0].cost] else []) + CostsOf(attempts[1..])
  }

  /** The function is called once for each attempt that takes place, and the tracker is given the cost of each that resolved. */
  lemma {:induction false} EveryResolvedAttemptIsCounted(call: Call, attempts: seq<Attempt>)
    ensures Attempts(call, attempts).calls == |Reached(attempts)|
    ensures Attempts(call, attempts).costs == CostsOf(Reached(attempts))
    ensures |Attempts(call, attempts).costs| <= 1
  {
    if attempts != [] {
      var rest := Reached(attempts[1..]);
      assert ([attempts[0]] + rest)[1..] == rest && [attempts[0]][1..] == [];
      if WaitsInProcess(attempts[0]) {
        EveryResolvedAttemptIsCounted(call, attempts[1..]);
      } else {
        hide FailureWrites, FailureOutcome, CompletedWrite;
        assert [attempts[0]] + [] == [attempts[0]];
        assert CostsOf([]) == [];
      }
    }
  }

  lemma {:induction false} SumOfConcat(a: seq<real>, b: seq<real>)
    ensures Sum(a + b) == Sum(a) + Sum(b)
  {
    if b == [] {
      assert a + b == a;
    } else {
      assert (a + b)[..|a + b| - 1] == a + b[..|b| - 1];
      SumOfConcat(a, b[..|b| - 1]);
    }
  }

  /** The attempts of a call that take place: none for a phase that is completed or could not be marked as running. */
  function ReachedBy(w: World, call: Call): seq<Attempt> {
    if IsSkipped(w.state, w.legacy, call) || call.runningMark.Refused? then [] else Reached(call.attempts)
  }

  /** The costs of the attempts that resolved in the process now running, `costs` being those from before. */
  function CostsOfThisProcess(w: World, costs: seq<real>, happenings: seq<Happening>): seq<real>
    decreases |happenings|
  {
    if happenings == [] then costs
    else
      var h := happenings[0];
      CostsOfThisProcess(Step(w, h), if h.NewProcess? then [] else costs + CostsOf(ReachedBy(w, h.call)), happenings[1..])
  }

  lemma CostsOfOneCall(w: World, call: Call)
    ensures Step(w, Runs(call)).total == w.total + Sum(CostsOf(ReachedBy(w, call)))
  {
    EveryResolvedAttemptIsCounted(call, call.attempts);
    hide IsSkipped, Attempts, CostsOf, WriteAll, CallTrace, After;
    assert CostsOf([]) == [] by { NoCosts(); }
  }

  lemma NoCosts()
    ensures CostsOf([]) == []
  {}

  /** At any time the tracker's total is the sum of the costs of the attempts that resolved in its process, and of no other. */
  lemma {:induction false} TotalIsWhatTheProcessSpent(w: World, costs: seq<real>, happenings: seq<Happening>)
    requires w.total == Sum(costs)
    ensures Run(w, happenings).total == Sum(CostsOfThisProcess(w, costs, happenings))
    decreases |happenings|
  {
    if happenings != [] {
      var h := happenings[0];
      if h.Runs? {
        CostsOfOneCall(w, h.call);
        SumOfConcat(costs, CostsOf(ReachedBy(w, h.call)));
        hide Step, ReachedBy;
        TotalIsWhatTheProcessSpent(Step(w, h), costs + CostsOf(ReachedBy(w, h.call)), happenings[1..]);
      } else {
        TotalIsWhatTheProcessSpent(Step(w, h), [], happenings[1..]);
      }
    }
  }

  /**
   * The deep merge keeps what a write does not mention: a phase that timed out once and then completes still names its
   * timeout, unless one of the two writes could not read the old entry.
   */
  lemma CompletedEntryKeepsAnOldReason(state: Option<TopState>, legacy: set<string>, call: Call)
    requires CallEffect(state, legacy, call).outcome.Returned?
    ensures
      var last := Last(Reached(call.attempts));
      var before := EntryOf(Persisted(state).phases, call.name);
      && last.Resolves?
      && var kept := call.runningMark.Sees? && !last.blind && before.Some?;
         EntryOf(Persisted(WriteAll(state, CallEffect(state, legacy, call).writes)).phases, call.name) ==
           Some(Entry(Completed, call.startedAt, Some(last.at), if kept then before.value.failureReason else None))
  {
    var k := LastAttempt(call, call.attempts);
    var last := call.attempts[k];
    assert last.Resolves? && last.trouble.NoTrouble?;
    var mark, done := Write(RunningPatch(call), call.runningMark.Blind?), CompletedWrite(call, last.at, last.blind);
    assert CallEffect(state, legacy, call).writes == [mark] + [done] == [mark, done];
    TwoWrites(state, mark, done);
    hide WriteAll, CallEffect, Attempts;
    EntryAfterTwo(state, call, mark.blind, last.at, last.blind);
  }

  lemma EntryAfterTwo(state: Option<TopState>, call: Call, blind: bool, at: int, blindToo: bool)
    ensures
      var before := EntryOf(Persisted(state).phases, call.name);
      var after := After(Some(After(state, Write(RunningPatch(call), blind))), CompletedWrite(call, at, blindToo));
      EntryOf(after.phases, call.name) ==
        Some(Entry(Completed, call.startedAt, Some(at), if !blind && !blindToo && before.Some? then before.value.failureReason else None))
  {}
}
